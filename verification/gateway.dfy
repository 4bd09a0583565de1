/** The gateway's handlers: each changes the store row of a function and its containers, one after the other. */
module Gateway {
  import opened GoText
  import opened Faults
  import opened ReplicaNames
  import opened ReplicaPlan
  import opened DockerDaemon
  import opened DockerProvider
  import opened ScaleLaws
  import opened GatewayState
  import Networks

  /** The function table; every call is one SQL statement that works or fails without effect. */
  class Store {
    const schedule: nat -> bool
    var calls: nat
    var rows: Rows

    constructor (schedule: nat -> bool, rows: Rows)
      ensures this.schedule == schedule && this.rows == rows && calls == 0
    {
      this.schedule, this.rows, calls := schedule, rows, 0;
    }

    ghost predicate NoFaults(from: nat)
      reads this
    {
      forall k | from <= k < calls :: schedule(k)
    }

    method GetFunction(name: string) returns (row: Option<Metadata>)
      modifies this
      ensures calls == old(calls) + 1 && rows == old(rows)
      ensures row == if schedule(old(calls)) && name in rows then Some(rows[name]) else None
    {
      row := if schedule(calls) && name in rows then Some(rows[name]) else None;
      calls := calls + 1;
    }

    /** Fails when the name is taken: names are unique in the table. */
    method CreateFunction(name: string, row: Metadata) returns (ok: bool)
      modifies this
      ensures calls == old(calls) + 1
      ensures ok <==> schedule(old(calls)) && name !in old(rows)
      ensures rows == if ok then old(rows)[name := row] else old(rows)
    {
      ok := schedule(calls) && name !in rows;
      rows := if ok then rows[name := row] else rows;
      calls := calls + 1;
    }

    /** Fails when no row has the name. */
    method UpdateFunction(name: string, row: Metadata) returns (ok: bool)
      modifies this
      ensures calls == old(calls) + 1
      ensures ok <==> schedule(old(calls)) && name in old(rows)
      ensures rows == if ok then old(rows)[name := row] else old(rows)
    {
      ok := schedule(calls) && name in rows;
      rows := if ok then rows[name := row] else rows;
      calls := calls + 1;
    }

    method UpdateReplicas(name: string, replicas: GoInt) returns (ok: bool)
      modifies this
      ensures calls == old(calls) + 1
      ensures ok <==> schedule(old(calls)) && name in old(rows)
      ensures rows == if ok then old(rows)[name := old(rows)[name].(replicas := replicas)] else old(rows)
    {
      ok := schedule(calls) && name in rows;
      rows := if ok then rows[name := rows[name].(replicas := replicas)] else rows;
      calls := calls + 1;
    }

    method DeleteFunction(name: string) returns (ok: bool)
      modifies this
      ensures calls == old(calls) + 1
      ensures ok <==> schedule(old(calls)) && name in old(rows)
      ensures rows == if ok then old(rows) - {name} else old(rows)
    {
      ok := schedule(calls) && name in rows;
      rows := if ok then rows - {name} else rows;
      calls := calls + 1;
    }
  }

  function NormalizeFunctionName(text: string): string {
    var name := TrimSpace(text);
    if HasSuffix(name, ".openfaas-fn") then TrimSuffix(name, ".openfaas-fn")
    else TrimSuffix(name, ".openfaas")
  }

  /** `text` names the function `s`: as it is, or with one of the OpenFaaS endings, with or without blanks around. */
  ghost predicate Names(text: string, s: string) {
    ValidServiceName(s)
    && exists before, ending, after | ending in {"", ".openfaas", ".openfaas-fn"} ::
         Blank(before) && Blank(after) && text == before + (s + ending) + after
         && (ending == "" ==> !HasSuffix(s, ".openfaas") && !HasSuffix(s, ".openfaas-fn"))
  }

  /** Whoever a text names is the function the handlers act on. */
  lemma NamedFunction(text: string)
    ensures forall s | Names(text, s) :: NormalizeFunctionName(text) == s
  {
    hide NormalizeFunctionName, TrimSpace, Blank;
    forall s | Names(text, s)
      ensures NormalizeFunctionName(text) == s
    {
      var before, ending, after :| ending in {"", ".openfaas", ".openfaas-fn"}
        && Blank(before) && Blank(after) && text == before + (s + ending) + after
        && (ending == "" ==> !HasSuffix(s, ".openfaas") && !HasSuffix(s, ".openfaas-fn"));
      EndsVisibly(s, ending);
      TrimBlanks(before, s + ending, after);
      EndingCut(text, s, ending);
    }
  }

  lemma NamesAreValid(text: string)
    ensures forall s | Names(text, s) :: ValidServiceName(s)
  {
  }

  lemma EndsVisibly(s: string, ending: string)
    requires ValidServiceName(s) && ending in {"", ".openfaas", ".openfaas-fn"}
    ensures var t := s + ending; t != "" && !IsSpace(t[0]) && !IsSpace(t[|t| - 1])
  {
    var t := s + ending;
    assert t[0] == s[0];
    assert t[|t| - 1] == if ending == "" then s[|s| - 1] else ending[|ending| - 1];
  }

  lemma EndingCut(text: string, s: string, ending: string)
    requires TrimSpace(text) == s + ending && ending in {"", ".openfaas", ".openfaas-fn"}
    requires ending == "" ==> !HasSuffix(s, ".openfaas") && !HasSuffix(s, ".openfaas-fn")
    ensures NormalizeFunctionName(text) == s
  {
    hide TrimSpace;
    var t := s + ending;
    if ending == "" {
      assert t == s;
    } else {
      assert t[|s|..] == ending && t[..|s|] == s;
      assert t[|t| - 1] == ending[|ending| - 1];
    }
  }

  /** What the gateway counts as available: a substring test on Docker's status text. */
  predicate IsAvailable(s: Summary) {
    Contains(s.status, "running") || Contains(s.status, "Up")
  }

  ghost predicate AnyAvailable(h: Host, service: string) {
    exists id | Owned(h, service, id) :: IsAvailable(Line(h, id))
  }

  /** On Docker's own status texts that test means running, or paused. */
  lemma AvailableLines(id: Id, c: Container, rest: string)
    requires c.status == StatusText(c.state, rest) && !Contains(rest, "Up") && !Contains(rest, "running")
    ensures IsAvailable(SummaryOf(id, c)) <==> c.state in {Running, Paused}
  {
    hide Contains;
    match c.state {
      case Created => NoPairNoWord("Created", "Up"); NoPairNoWord("Created", "running");
      case Dead => NoPairNoWord("Dead", "Up"); NoPairNoWord("Dead", "running");
      case Removing => NoPairNoWord("Removal In Progress", "Up"); NoPairNoWord("Removal In Progress", "running");
      case Running => UpOccurs(rest);
      case Paused => UpOccurs(rest);
      case Restarting => OnlyAfter("Restarting", rest);
      case Exited => OnlyAfter("Exited", rest);
    }
  }

  lemma UpOccurs(rest: string)
    ensures Contains("Up " + rest, "Up")
  {
    assert ("Up " + rest)[0..2] == "Up";
    assert OccursAt("Up " + rest, "Up", 0);
  }

  lemma OnlyAfter(word: string, rest: string)
    requires word in {"Restarting", "Exited"} && !Contains(rest, "Up") && !Contains(rest, "running")
    ensures !Contains(word + " " + rest, "Up") && !Contains(word + " " + rest, "running")
    ensures "Restarting" + " " == "Restarting " && "Exited" + " " == "Exited "
  {
    hide Contains;
    NoPairNoWord(word, "Up");
    NoPairNoWord(word, "running");
    ContainsAcross(word, ' ', rest, "Up");
    ContainsAcross(word, ' ', rest, "running");
    assert word + " " + rest == word + [' '] + rest;
  }

  lemma AvailableIsListed(h: Host, service: string, listing: seq<Summary>)
    ensures Lists(h, service, listing) ==>
              (AnyAvailable(h, service) <==> exists k | 0 <= k < |listing| :: IsAvailable(listing[k]))
  {
    hide IsAvailable, SummaryOf;
    if Lists(h, service, listing) {
      ListedOnce(h, service, listing);
      if AnyAvailable(h, service) {
        var id :| Owned(h, service, id) && IsAvailable(Line(h, id));
        var k :| 0 <= k < |listing| && listing[k] == Line(h, id);
      }
    }
  }

  const ACCEPTED := 202
  const BAD_REQUEST := 400
  const NOT_FOUND := 404
  const CONFLICT := 409
  const SERVER_ERROR := 500
  const GATEWAY_TIMEOUT := 504

  /** The function is stored with at least this count. */
  predicate CountCovers(rows: Rows, service: string, n: int) {
    service in rows && n <= rows[service].replicas
  }

  /** The function, if it is stored, has at least this count. */
  predicate WithinCount(rows: Rows, service: string, n: int) {
    service in rows ==> n <= rows[service].replicas
  }

  predicate Malformed(dep: Deployment) {
    dep.service == "" || dep.image == "" || !ValidServiceName(dep.service)
  }

  function WithNetwork(dep: Deployment, fallback: string): Deployment {
    if dep.network == "" then dep.(network := fallback) else dep
  }

  function RowFor(dep: Deployment, replicas: GoInt): Metadata {
    Metadata(dep.image, dep.network, dep.labels, replicas)
  }

  lemma NetworkFilledIn(request: Deployment, baseNetwork: string)
    ensures var dep := WithNetwork(request, Networks.FunctionNetworkName(baseNetwork, request.service));
            dep.service == request.service && dep.image == request.image && dep.labels == request.labels
            && dep.network == (if request.network != "" then request.network
                               else if baseNetwork == "" then request.service else baseNetwork + "-" + request.service)
            && (ReadsBack(dep) <==> ReadsBack(request)) && (ValidServiceName(request.service) ==> dep.network != "")
  {
    hide Atoi, TrimSpace;
  }

  lemma RowFields(dep: Deployment, n: GoInt)
    ensures var row := RowFor(dep, n);
            row.image == dep.image && row.network == dep.network && row.labels == dep.labels && row.replicas == n
  {
  }

  lemma FirstIsFree(h: Host, dep: Deployment, baseNetwork: string)
    requires dep.network != ""
    ensures (forall i: nat | i < 1 :: CanCreate(h, dep, baseNetwork, i)) <==> !Blocked(h, dep.service, 0)
  {
    hide Blocked;
    assert CanCreate(h, dep, baseNetwork, 0) <==> !Blocked(h, dep.service, 0);
  }

  /** The row kept of a deployment is well-formed when the deployment is. */
  lemma RowsReadBack(dep: Deployment, n: GoInt)
    ensures RowOk(dep.service, RowFor(dep, n)) <==>
            ValidServiceName(dep.service) && n >= 0 && dep.network != "" && ReadsBack(dep)
  {
    hide ValidServiceName, Atoi, TrimSpace;
  }

  class Gateway {
    const store: Store
    const provider: Provider
    const cleaner: Networks.NetworkCleaner
    const network: string

    constructor (store: Store, provider: Provider, cleaner: Networks.NetworkCleaner, network: string)
      ensures this.store == store && this.provider == provider && this.cleaner == cleaner && this.network == network
    {
      this.store, this.provider, this.cleaner, this.network := store, provider, cleaner, network;
    }

    ghost predicate Valid()
      reads provider.daemon
    {
      provider.Valid()
    }

    /** What holds whatever fails. */
    ghost predicate Intact()
      reads store, provider.daemon
    {
      Sound(store.rows, provider.daemon.host)
    }

    /** Row and containers of the function agree. */
    ghost predicate Settled(service: string)
      reads store, provider.daemon
    {
      Consistent(store.rows, provider.daemon.host, service)
    }

    /** Each container of the function is one of its replicas 0 to n - 1. */
    ghost predicate Holds(service: string, n: int)
      reads provider.daemon
    {
      Placed(provider.daemon.host, service, n)
    }

    ghost predicate Serves(service: string, n: int)
      reads provider.daemon
    {
      Up(provider.daemon.host, service, n)
    }

    /** No store or Docker call has failed since `old`. */
    twostate predicate Smooth()
      reads store, provider.daemon
    {
      store.NoFaults(old(store.calls)) && provider.daemon.NoFaults(old(provider.daemon.calls))
    }

    /** The request left every other function alone, row and containers, and broke nothing. */
    twostate predicate Spares(service: string)
      reads store, provider.daemon
    {
      Undisturbed(store.rows, old(provider.daemon.host), provider.daemon.host, service)
      && store.rows - {service} == old(store.rows) - {service}
    }

    twostate predicate NothingChanged()
      reads store, provider.daemon
    {
      store.rows == old(store.rows) && provider.daemon.host == old(provider.daemon.host)
    }

    /** The function is stored with exactly this, and runs it: image, network, user labels and number of replicas. */
    ghost predicate RunsAsStored(service: string, image: string, on: string, labels: map<string, string>, n: int)
      reads store, provider.daemon
    {
      service in store.rows && store.rows[service].image == image && store.rows[service].network == on
      && store.rows[service].labels == labels && store.rows[service].replicas == n
      && RunReplicas(provider.daemon.host, service, n, image, on, labels)
    }

    /** The provider's deployment of a function, seen from the records. */
    method Deploy(dep: Deployment, n: GoInt) returns (ok: bool)
      requires Valid() && n >= 0
      modifies provider.daemon
      ensures Valid() && old(provider.daemon.calls) <= provider.daemon.calls
      ensures provider.daemon.NoFaults(old(provider.daemon.calls)) ==>
                (ok <==> forall i: nat | i < n :: CanCreate(old(provider.daemon.host), dep, provider.network, i))
      ensures ok && dep.network != "" ==>
                RunReplicas(provider.daemon.host, dep.service, n, dep.image, dep.network, dep.labels)
      ensures old(Intact()) && ReadsBack(dep) && ValidServiceName(dep.service) ==>
                Undisturbed(store.rows, old(provider.daemon.host), provider.daemon.host, dep.service)
                && (ok ==> Serves(dep.service, n)
                           && (Holds(dep.service, n) <==> old(Holds(dep.service, n))))
                && (forall m: GoInt | n <= m && Placed(old(provider.daemon.host), dep.service, m) ::
                      Placed(provider.daemon.host, dep.service, m))
      ensures old(Intact()) && ValidServiceName(dep.service) && dep.network != ""
              && Members(old(provider.daemon.host), dep.service) == {}
              && provider.daemon.NoFaults(old(provider.daemon.calls)) ==>
                ok
    {
      hide ValidServiceName, Sound, WellFormed, Progress, History, NewReplica, CanCreate, OthersSame, Consistent,
        ReadsBack, Undisturbed, Without, Up, Placed, RunReplicas;
      ghost var rows, h0 := store.rows, provider.daemon.host;
      var count: nat := n;
      if Sound(rows, h0) && Members(h0, dep.service) == {} && ValidServiceName(dep.service) && dep.network != "" {
        ClearedIsFree(rows, h0, dep, provider.network);
        EmptyIsCleared(h0, dep.service);
      }
      ok := provider.DeployFunction(dep, count);
      if ok && dep.network != "" {
        NewRunReplicas(h0, provider.daemon.host, dep, provider.network, count);
      }
      ghost var h1, indices := provider.daemon.host, Indices(Plan([], [], FirstIndices(count)));
      if Sound(rows, h0) && ReadsBack(dep) && ValidServiceName(dep.service) {
        ProgressUndisturbed(rows, h0, h1, {}, dep, provider.network, indices);
        forall m: GoInt | n <= m && Placed(h0, dep.service, m)
          ensures Placed(h1, dep.service, m)
        {
          ProgressStaysPlaced(h0, h1, {}, dep, provider.network, indices, m);
        }
        if ok {
          NewAreUp(h0, h1, dep, provider.network, count);
          DeployedOver(rows, h0, h1, dep, provider.network, count);
        }
      }
    }

    /** Removing a function's containers, as far as the removals work. */
    method Remove(service: string) returns (ok: bool)
      requires Valid()
      modifies provider.daemon
      ensures Valid() && old(provider.daemon.calls) <= provider.daemon.calls
      ensures old(Intact()) ==>
                Undisturbed(store.rows, old(provider.daemon.host), provider.daemon.host, service)
      ensures forall n: GoInt | Placed(old(provider.daemon.host), service, n) ::
                Placed(provider.daemon.host, service, n)
      ensures !ok ==> provider.daemon.host == old(provider.daemon.host)
      ensures provider.daemon.NoFaults(old(provider.daemon.calls)) ==>
                ok && provider.daemon.host == Without(old(provider.daemon.host), service)
    {
      hide Sound, WellFormed, OthersSame, Undisturbed, OnlyRemoves, Without, Placed;
      ghost var rows, h0 := store.rows, provider.daemon.host;
      ok := provider.RemoveFunction(service);
      RemovalsStayPlaced(h0, provider.daemon.host, Members(h0, service), service);
      if Sound(rows, h0) {
        RemovalsUndisturbed(rows, h0, provider.daemon.host, service);
      }
    }

    /** A failed request may leave containers of its own function behind, but disturbs no other. Such a leftover, while
        active under the first name, is the only obstacle to a later deploy. A deploy that is accepted over leftovers
        leaves the function consistent exactly when all of them held the first name, whatever failed on the way. */
    method HandleDeployFunction(request: Deployment) returns (code: int)
      requires Valid()
      modifies store, provider.daemon
      ensures Valid()
      ensures code == BAD_REQUEST <==>
                request.service == "" || request.image == "" || !ValidServiceName(request.service)
      ensures code == ACCEPTED ==>
                var on := if request.network != "" then request.network
                         else if network == "" then request.service else network + "-" + request.service;
                RunsAsStored(request.service, request.image, on, request.labels, 1)
      ensures var dep := WithNetwork(request, Networks.FunctionNetworkName(network, request.service));
              store.rows == if code == ACCEPTED then old(store.rows)[dep.service := RowFor(dep, 1)] else old(store.rows)
      ensures Smooth() && !Malformed(request) && request.service !in old(store.rows) ==>
                (code == ACCEPTED <==> !Blocked(old(provider.daemon.host), request.service, 0))
      ensures old(Intact()) && ReadsBack(request) ==> Spares(request.service)
      ensures old(Intact()) && ReadsBack(request) && code == ACCEPTED ==>
                request.service !in old(store.rows) && Serves(request.service, 1)
                && (Settled(request.service) <==> old(Holds(request.service, 1)))
      ensures old(Intact()) && ReadsBack(request) && old(Settled(request.service)) ==>
                (code == ACCEPTED || CountCovers(old(store.rows), request.service, 1) ==> Settled(request.service))
                && (Smooth() ==>
                      code == (if Malformed(request) then BAD_REQUEST
                               else if request.service in old(store.rows) then CONFLICT else ACCEPTED)
                      && (code != ACCEPTED ==> NothingChanged()))
    {
      hide ValidServiceName, Sound, WellFormed, OthersSame, Consistent, ReadsBack, Undisturbed, Without, Up, CanCreate,
        Blocked, RowOk, Placed, RunReplicas, RowFor, WithNetwork;
      ghost var h0 := provider.daemon.host;
      UndisturbedMeans(store.rows, h0, h0, request.service);
      if Malformed(request) {
        return BAD_REQUEST;
      }
      var dep := WithNetwork(request, Networks.FunctionNetworkName(network, request.service));
      NetworkFilledIn(request, network);
      RowFields(dep, 1);
      var existing := store.GetFunction(dep.service);
      if existing.Some? {
        return CONFLICT;
      }
      ConsistentMeans(store.rows, h0, dep.service);
      RowsReadBack(dep, 1);
      ghost var rows1 := store.rows[dep.service := RowFor(dep, 1)];
      FirstIsFree(h0, dep, provider.network);
      var deployed := Deploy(dep, 1);
      ghost var h1 := provider.daemon.host;
      ConsistentMeans(store.rows, h1, dep.service);
      ConsistentMeans(rows1, h1, dep.service);
      if !deployed {
        return SERVER_ERROR;
      }
      if Sound(store.rows, h0) && ReadsBack(dep) {
        RowStored(store.rows, h0, h1, dep.service, RowFor(dep, 1));
      }
      UndisturbedMeans(store.rows, h0, h1, dep.service);
      var created := store.CreateFunction(dep.service, RowFor(dep, 1));
      if !created {
        var _ := Remove(dep.service);
        ConsistentMeans(store.rows, provider.daemon.host, dep.service);
        if Sound(store.rows, h0) && ReadsBack(dep) {
          UndisturbedChain(store.rows, h0, h1, provider.daemon.host, dep.service);
        }
        return SERVER_ERROR;
      }
      return ACCEPTED;
    }

    /** The row an update writes: the new deployment with the old replica count. */
    function UpdatedRow(request: Deployment, existing: Metadata): Metadata {
      RowFor(Networked(request, existing.network), existing.replicas)
    }

    /** The request's own network, else the one given, else the function's own. */
    function Networked(request: Deployment, fallback: string): Deployment {
      WithNetwork(WithNetwork(request, fallback), Networks.FunctionNetworkName(network, request.service))
    }

    lemma NetworkedReads(request: Deployment, fallback: string)
      ensures var dep := Networked(request, fallback);
              dep.service == request.service && dep.image == request.image && dep.labels == request.labels
              && dep.network == (if request.network != "" then request.network
                                 else if fallback != "" then fallback
                                 else if network == "" then request.service else network + "-" + request.service)
              && (ReadsBack(dep) <==> ReadsBack(request)) && (ValidServiceName(request.service) ==> dep.network != "")
    {
      hide Atoi, TrimSpace;
    }

    /** The provider's update, as update and build-deploy use it. Failing to remove an old container is only logged;
        wherever it stops, containers that were within the count stay so, and success means that all replicas run. */
    method Redeploy(dep: Deployment, replicas: GoInt) returns (ok: bool)
      requires Valid() && ValidServiceName(dep.service)
      modifies provider.daemon
      ensures Valid() && old(provider.daemon.calls) <= provider.daemon.calls
      ensures ok && dep.network != "" ==>
                RunReplicas(provider.daemon.host, dep.service, replicas, dep.image, dep.network, dep.labels)
      ensures old(Intact()) && ReadsBack(dep) ==>
                Undisturbed(store.rows, old(provider.daemon.host), provider.daemon.host, dep.service)
                && (ok ==> Serves(dep.service, replicas))
                && (replicas >= 0 && Placed(old(provider.daemon.host), dep.service, replicas) ==>
                      Placed(provider.daemon.host, dep.service, replicas))
      ensures old(Intact()) && ReadsBack(dep) && dep.network != "" && replicas >= 0
              && provider.daemon.NoFaults(old(provider.daemon.calls)) ==>
                ok && Placed(provider.daemon.host, dep.service, replicas)
    {
      hide ValidServiceName, Sound, WellFormed, Progress, History, NewReplica, CanCreate, OthersSame, OnlyRemoves, Up,
        Without, Consistent, ReadsBack, Undisturbed, Placed, RunReplicas;
      ghost var rows, h0 := store.rows, provider.daemon.host;
      var n: nat := if replicas < 0 then 0 else replicas;
      var deployed, cleared := provider.UpdateFunction(dep, n);
      ok := deployed;
      if ok && dep.network != "" {
        NewRunReplicas(cleared, provider.daemon.host, dep, provider.network, n);
      }
      ghost var h1, indices := provider.daemon.host, Indices(Plan([], [], FirstIndices(n)));
      if Sound(rows, h0) && ReadsBack(dep) {
        RedeployServed(rows, h0, cleared, h1, dep, provider.network, n);
        if ok {
          NewAreUp(cleared, h1, dep, provider.network, n);
          UpToCount(h1, dep.service, replicas, n);
        }
        RemovalsStayPlaced(h0, cleared, Members(h0, dep.service), dep.service);
        if Placed(cleared, dep.service, n) {
          ProgressStaysPlaced(cleared, h1, {}, dep, provider.network, indices, n);
        }
        if dep.network != "" && provider.daemon.NoFaults(old(provider.daemon.calls)) {
          ClearedIsFree(rows, h0, dep, provider.network);
          ConsistentMeans(map[], cleared, dep.service);
        }
      }
    }

    method HandleUpdateFunction(request: Deployment) returns (code: int)
      requires Valid()
      modifies store, provider.daemon
      ensures Valid()
      ensures code == BAD_REQUEST <==>
                request.service == "" || request.image == "" || !ValidServiceName(request.service)
      ensures code != ACCEPTED ==> store.rows == old(store.rows)
      ensures code == ACCEPTED ==>
                request.service in old(store.rows)
                && store.rows ==
                   old(store.rows)[request.service := UpdatedRow(request, old(store.rows)[request.service])]
      ensures code == ACCEPTED ==>
                var existing := old(store.rows)[request.service];
                var on := if request.network != "" then request.network
                          else if existing.network != "" then existing.network
                          else if network == "" then request.service else network + "-" + request.service;
                RunsAsStored(request.service, request.image, on, request.labels, existing.replicas)
      ensures old(Intact()) && ReadsBack(request) ==>
                Spares(request.service)
                && (old(Settled(request.service)) ==> Settled(request.service))
                && (code == ACCEPTED ==> Serves(request.service, store.rows[request.service].replicas))
                && (Smooth() ==>
                      code == (if Malformed(request) then BAD_REQUEST
                               else if request.service !in old(store.rows) then NOT_FOUND else ACCEPTED)
                      && if code == ACCEPTED then Settled(request.service) else NothingChanged())
    {
      hide ValidServiceName, Sound, WellFormed, OthersSame, Consistent, ReadsBack, Undisturbed, Up, Placed, RunReplicas,
        RowFor, Networked;
      ghost var rows, h0 := store.rows, provider.daemon.host;
      UndisturbedMeans(rows, h0, h0, request.service);
      if Malformed(request) {
        return BAD_REQUEST;
      }
      var existing := store.GetFunction(request.service);
      if existing.None? {
        return NOT_FOUND;
      }
      var dep := Networked(request, existing.value.network);
      ghost var row := RowFor(dep, existing.value.replicas);
      NetworkedReads(request, existing.value.network);
      RowFields(dep, existing.value.replicas);
      RowsReadBack(dep, existing.value.replicas);
      if Sound(rows, h0) {
        RowChanges(rows, h0, dep.service, row);
      }
      ConsistentMeans(rows, h0, dep.service);
      var ok := Redeploy(dep, existing.value.replicas);
      ConsistentMeans(rows, provider.daemon.host, dep.service);
      ConsistentMeans(rows[dep.service := row], provider.daemon.host, dep.service);
      if Sound(rows, h0) && ReadsBack(dep) {
        RowStored(rows, h0, provider.daemon.host, dep.service, row);
      }
      if !ok {
        return SERVER_ERROR;
      }
      ok := store.UpdateFunction(dep.service, RowFor(dep, existing.value.replicas));
      return if ok then ACCEPTED else SERVER_ERROR;
    }

    /** Containers, then row, then the function's network; what happens to the network is only logged. */
    method HandleDeleteFunction(text: string) returns (code: int)
      requires Valid()
      modifies store, provider.daemon, cleaner.daemon
      ensures Valid() && (code == BAD_REQUEST <==> !ValidServiceName(NormalizeFunctionName(text)))
      ensures var service := NormalizeFunctionName(text);
              store.rows == if code == ACCEPTED then old(store.rows) - {service} else old(store.rows)
      ensures var service := NormalizeFunctionName(text);
              code == ACCEPTED ==>
                service in old(store.rows)
                && cleaner.Cleans(old(cleaner.daemon.nets), service, old(store.rows)[service].network)
      ensures code != ACCEPTED ==> cleaner.daemon.nets == old(cleaner.daemon.nets)
      ensures forall s | Names(text, s) ::
                code != BAD_REQUEST && (old(Intact()) ==> Spares(s))
                && (code == ACCEPTED ==> s in old(store.rows) && store.rows == old(store.rows) - {s})
      ensures var service := NormalizeFunctionName(text);
              old(Intact()) ==>
                Spares(service)
                && (old(Settled(service)) && code != ACCEPTED ==> Settled(service))
                && (Smooth() ==>
                      code == (if !ValidServiceName(service) then BAD_REQUEST
                               else if service !in old(store.rows) then NOT_FOUND else ACCEPTED)
                      && if code == ACCEPTED
                         then Settled(service) && provider.daemon.host == Without(old(provider.daemon.host), service)
                         else NothingChanged())
    {
      hide ValidServiceName, Sound, WellFormed, OthersSame, Consistent, Undisturbed, Without, Placed,
        NormalizeFunctionName;
      NamedFunction(text);
      hide Names;
      var service := NormalizeFunctionName(text);
      NamesAreValid(text);
      ghost var rows, h0 := store.rows, provider.daemon.host;
      UndisturbedMeans(rows, h0, h0, service);
      if !ValidServiceName(service) {
        return BAD_REQUEST;
      }
      var metadata := store.GetFunction(service);
      if metadata.None? {
        return NOT_FOUND;
      }
      ConsistentMeans(rows, h0, service);
      var ok := Remove(service);
      ConsistentMeans(rows, provider.daemon.host, service);
      if Sound(rows, h0) {
        RowStored(rows, h0, provider.daemon.host, service, metadata.value);
        DeleteServed(rows, h0, service);
      }
      if !ok {
        return SERVER_ERROR;
      }
      ok := store.DeleteFunction(service);
      if !ok {
        return SERVER_ERROR;
      }
      var _ := cleaner.CleanupFunctionNetwork(service, metadata.value.network);
      return ACCEPTED;
    }

    /** What a build does once it has an image: update the function if it is stored, deploy it otherwise. */
    method DeployBuiltImage(request: Deployment) returns (updated: bool, ok: bool)
      requires Valid() && ValidServiceName(request.service)
      modifies store, provider.daemon
      ensures Valid() && (updated ==> request.service in old(store.rows))
      ensures var dep := WithNetwork(request, Networks.FunctionNetworkName(network, request.service));
              store.rows == if !ok then old(store.rows)
                            else if updated
                            then old(store.rows)[dep.service := RowFor(dep, old(store.rows)[dep.service].replicas)]
                            else old(store.rows)[dep.service := RowFor(dep, 1)]
      ensures ok ==>
                var on := if request.network != "" then request.network
                         else if network == "" then request.service else network + "-" + request.service;
                var n := if updated then old(store.rows)[request.service].replicas else 1;
                RunsAsStored(request.service, request.image, on, request.labels, n)
      ensures old(Intact()) && ReadsBack(request) ==>
                Spares(request.service)
                && (ok ==> Serves(request.service, store.rows[request.service].replicas))
                && (ok && !updated ==> (Settled(request.service) <==> old(Holds(request.service, 1))))
      ensures old(Intact()) && ReadsBack(request) && old(Settled(request.service))
              && (ok || CountCovers(old(store.rows), request.service, 1)) ==>
                Settled(request.service)
      ensures old(Intact()) && ReadsBack(request) && Smooth()
              && (request.service in old(store.rows) || old(Settled(request.service))) ==>
                ok && Settled(request.service) && (updated <==> request.service in old(store.rows))
    {
      hide ValidServiceName, Sound, WellFormed, OthersSame, Consistent, ReadsBack, Undisturbed, Up, Without, Placed,
        RowOk, RunReplicas, RowFor, WithNetwork;
      ghost var rows, h0 := store.rows, provider.daemon.host;
      var dep := WithNetwork(request, Networks.FunctionNetworkName(network, request.service));
      NetworkFilledIn(request, network);
      var existing := store.GetFunction(dep.service);
      var n: GoInt := if existing.Some? then existing.value.replicas else 1;
      ghost var rows1 := rows[dep.service := RowFor(dep, n)];
      RowFields(dep, n);
      RowsReadBack(dep, n);
      ConsistentMeans(rows, h0, dep.service);
      if Sound(rows, h0) && dep.service in rows {
        StoredCount(rows, h0, dep.service);
      }
      updated := existing.Some?;
      if updated {
        ok := Redeploy(dep, n);
      } else {
        ok := Deploy(dep, n);
      }
      ghost var h1 := provider.daemon.host;
      ConsistentMeans(rows, h1, dep.service);
      ConsistentMeans(rows1, h1, dep.service);
      if Sound(rows, h0) && ReadsBack(dep) {
        RowStored(rows, h0, h1, dep.service, RowFor(dep, n));
        UndisturbedMeans(rows, h0, h1, dep.service);
      }
      if !ok {
        return;
      }
      if updated {
        ok := store.UpdateFunction(dep.service, RowFor(dep, n));
        return;
      }
      ok := store.CreateFunction(dep.service, RowFor(dep, n));
      if !ok {
        var _ := Remove(dep.service);
        ConsistentMeans(rows, provider.daemon.host, dep.service);
        if Sound(rows, h0) && ReadsBack(dep) {
          UndisturbedChain(rows, h0, h1, provider.daemon.host, dep.service);
        }
      }
    }

    /** Scaling and storing the count, as the scale handler and scale-from-zero use it. Once both have worked the
        function is consistent, whatever state earlier failures left it in and whatever failed on the way. */
    method ScaleStored(service: string, metadata: Metadata, replicas: GoInt) returns (scaled: bool, stored: bool)
      requires Valid() && replicas >= 0
      modifies store, provider.daemon
      ensures Valid() && old(store.calls) <= store.calls && old(provider.daemon.calls) <= provider.daemon.calls
      ensures stored ==> scaled && service in old(store.rows)
      ensures store.rows == if stored then old(store.rows)[service := old(store.rows)[service].(replicas := replicas)]
                            else old(store.rows)
      ensures metadata.network != "" ==>
                NewcomersAreReplicas(old(provider.daemon.host), provider.daemon.host, service, replicas, metadata.image,
                                     metadata.network, metadata.labels)
      ensures old(Intact()) && service in old(store.rows) && metadata == old(store.rows)[service] ==>
                Spares(service) && (stored ==> Settled(service)) && (scaled ==> Serves(service, replicas))
                && (old(Settled(service)) && replicas <= metadata.replicas ==> Settled(service))
                && (Smooth() ==> stored)
    {
      hide ValidServiceName, Sound, WellFormed, Progress, History, NewReplica, CanCreate, OthersSame, Up, IsPlan,
        Completed, Unobstructed, Lists, Consistent, ReadsBack, Undisturbed, Placed,
        NewcomersAreReplicas;
      ghost var rows, h0 := store.rows, provider.daemon.host;
      var dep := DeploymentOf(service, metadata);
      var ok, planned, listing, plan := provider.ScaleFunction(dep, replicas);
      scaled, stored := ok, false;
      ghost var h1, row := provider.daemon.host, metadata.(replicas := replicas);
      UndisturbedMeans(rows, h0, h0, service);
      if planned && metadata.network != "" {
        ScaleNewcomersRun(h0, h1, dep, provider.network, replicas, listing, plan);
      }
      NoNewcomers(h0, service, replicas, metadata);
      if Sound(rows, h0) && service in rows && metadata == rows[service] {
        RowChanges(rows, h0, service, metadata);
        SoundIsWellFormed(rows, h0);
        assert RowOk(service, row) && ValidServiceName(service) && ReadsBack(dep);
        if planned {
          ScaleUnobstructed(rows, h0, dep, provider.network, replicas, listing, plan);
          AttemptUndisturbed(rows, h0, h1, dep, provider.network, replicas, listing, plan);
          ConsistentMeans(rows, h0, service);
          ConsistentMeans(rows, h1, service);
          if Placed(h0, service, metadata.replicas) && replicas <= metadata.replicas {
            AttemptStaysPlaced(h0, h1, dep, provider.network, replicas, listing, plan, metadata.replicas);
          }
        }
        if ok {
          ScaleServed(rows, h0, h1, dep, provider.network, replicas, listing, plan, row);
        }
      }
      if scaled {
        stored := store.UpdateReplicas(service, replicas);
      }
    }

    method HandleScaleFunction(text: string, replicas: GoInt) returns (code: int)
      requires Valid()
      modifies store, provider.daemon
      ensures Valid()
      ensures code == BAD_REQUEST <==> !ValidServiceName(NormalizeFunctionName(text)) || replicas < 0
      ensures code != ACCEPTED ==> store.rows == old(store.rows)
      ensures var service := NormalizeFunctionName(text);
              service in old(store.rows) && old(store.rows)[service].network != "" ==>
                var row := old(store.rows)[service];
                NewcomersAreReplicas(old(provider.daemon.host), provider.daemon.host, service, replicas, row.image,
                                     row.network, row.labels)
      ensures forall s | Names(text, s) ::
                (code == BAD_REQUEST <==> replicas < 0)
                && (old(Intact()) ==> Spares(s))
                && (code == ACCEPTED ==>
                      s in old(store.rows) && s in store.rows
                      && store.rows[s] == old(store.rows)[s].(replicas := replicas)
                      && (old(Intact()) ==> Settled(s) && Serves(s, replicas)))
      ensures var service := NormalizeFunctionName(text);
              code == ACCEPTED ==>
                service in old(store.rows)
                && store.rows == old(store.rows)[service := old(store.rows)[service].(replicas := replicas)]
      ensures var service := NormalizeFunctionName(text);
              old(Intact()) ==>
                Spares(service)
                && (code == ACCEPTED ==> Settled(service) && Serves(service, replicas))
                && (old(Settled(service)) && WithinCount(old(store.rows), service, replicas) ==> Settled(service))
                && (Smooth() ==>
                      code == (if !ValidServiceName(service) || replicas < 0 then BAD_REQUEST
                               else if service !in old(store.rows) then NOT_FOUND else ACCEPTED)
                      && (code != ACCEPTED ==> NothingChanged()))
    {
      hide ValidServiceName, Sound, OthersSame, Consistent, Undisturbed, Up, NormalizeFunctionName;
      NamedFunction(text);
      hide Names, NewcomersAreReplicas;
      var service := NormalizeFunctionName(text);
      NamesAreValid(text);
      if service in store.rows {
        NoNewcomers(provider.daemon.host, service, replicas, store.rows[service]);
      }
      UndisturbedMeans(store.rows, provider.daemon.host, provider.daemon.host, service);
      if !ValidServiceName(service) || replicas < 0 {
        return BAD_REQUEST;
      }
      var metadata := store.GetFunction(service);
      if metadata.None? {
        return NOT_FOUND;
      }
      var scaled, stored := ScaleStored(service, metadata.value, replicas);
      return if stored then ACCEPTED else SERVER_ERROR;
    }

    /** An invocation up to where the request is forwarded: scale from zero to one when no replica is available, and
        wait. Failing to store the count is only logged. `ready` says whether a replica became available in time. */
    method PrepareInvocation(text: string, ready: bool) returns (code: int)
      requires Valid()
      modifies store, provider.daemon
      ensures Valid() && (code == BAD_REQUEST <==> !ValidServiceName(NormalizeFunctionName(text)))
      ensures code == GATEWAY_TIMEOUT ==> !ready
      ensures var service := NormalizeFunctionName(text);
              service in old(store.rows) && old(store.rows)[service].network != "" ==>
                var row := old(store.rows)[service];
                NewcomersAreReplicas(old(provider.daemon.host), provider.daemon.host, service, 1, row.image,
                                     row.network, row.labels)
      ensures forall s | Names(text, s) ::
                code != BAD_REQUEST && (old(Intact()) ==> Spares(s))
                && (old(Intact()) && Smooth() && s in old(store.rows) && !AnyAvailable(old(provider.daemon.host), s) ==>
                      s in store.rows && store.rows[s].replicas == 1 && Settled(s) && Serves(s, 1))
      ensures var service := NormalizeFunctionName(text);
              store.rows == old(store.rows)
              || (service in old(store.rows)
                  && store.rows == old(store.rows)[service := old(store.rows)[service].(replicas := 1)])
      ensures var service := NormalizeFunctionName(text);
              old(Intact()) ==>
                Spares(service)
                && (old(Settled(service)) && WithinCount(old(store.rows), service, 1) ==> Settled(service))
                && (Smooth() ==>
                      var asleep := !AnyAvailable(old(provider.daemon.host), service);
                      code == (if !ValidServiceName(service) then BAD_REQUEST
                               else if service !in old(store.rows) then NOT_FOUND
                               else if asleep && !ready then GATEWAY_TIMEOUT else ACCEPTED)
                      && if asleep && code in {ACCEPTED, GATEWAY_TIMEOUT}
                         then Settled(service) && store.rows[service].replicas == 1 && Serves(service, 1)
                         else NothingChanged())
    {
      hide ValidServiceName, Sound, OthersSame, Consistent, Undisturbed, Up, NormalizeFunctionName, IsAvailable, Lists;
      NamedFunction(text);
      hide Names, NewcomersAreReplicas;
      var service := NormalizeFunctionName(text);
      NamesAreValid(text);
      if service in store.rows {
        NoNewcomers(provider.daemon.host, service, 1, store.rows[service]);
      }
      UndisturbedMeans(store.rows, provider.daemon.host, provider.daemon.host, service);
      if !ValidServiceName(service) {
        return BAD_REQUEST;
      }
      var fn := store.GetFunction(service);
      if fn.None? {
        return NOT_FOUND;
      }
      var containers, listing := provider.GetFunctionContainers(service);
      if !containers.Done? {
        return SERVER_ERROR;
      }
      var available := 0;
      for n := 0 to |containers.value|
        invariant available == 0 <==> forall k | 0 <= k < n :: !IsAvailable(containers.value[k])
      {
        if IsAvailable(containers.value[n]) {
          available := available + 1;
        }
      }
      AvailableIsListed(provider.daemon.host, service, listing);
      if containers == Done(listing) && AnyAvailable(provider.daemon.host, service) {
        var k :| 0 <= k < |listing| && IsAvailable(listing[k]);
        assert IsAvailable(containers.value[k]);
      }
      if available == 0 {
        var scaled, stored := ScaleStored(service, fn.value, 1);
        if !scaled {
          return SERVER_ERROR;
        }
        if !ready {
          return GATEWAY_TIMEOUT;
        }
      }
      return ACCEPTED;
    }
  }
}
