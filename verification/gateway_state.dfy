/** The two records the gateway keeps of a function, its store row and its containers, and when they agree. */
module GatewayState {
  import opened GoText
  import opened ReplicaNames
  import opened ReplicaPlan
  import opened ReplicaPlanLaws
  import opened DockerDaemon
  import opened DockerProvider
  import opened ScaleLaws
  import opened CreationRaces

  datatype Metadata = Metadata(image: string, network: string, labels: map<string, string>, replicas: GoInt)

  type Rows = map<string, Metadata>

  function DeploymentOf(service: string, meta: Metadata): Deployment {
    Deployment(service, meta.image, meta.network, meta.labels)
  }

  ghost predicate RowOk(service: string, meta: Metadata) {
    ValidServiceName(service) && meta.replicas >= 0 && meta.network != "" && ReadsBack(DeploymentOf(service, meta))
  }

  /** Container `id` is the replica of `service` at an index below `n`, by label and by name. */
  ghost predicate PlacedBelow(h: Host, service: string, n: int, id: Id) {
    Owned(h, service, id) && exists i: nat | i < n :: TrackedAt(h.containers[id], i)
  }

  ghost predicate Placed(h: Host, service: string, n: int) {
    forall id | Owned(h, service, id) :: PlacedBelow(h, service, n, id)
  }

  /** Containers without a function label keep off the provider's names. */
  ghost predicate Foreign(h: Host) {
    forall id, f, i: nat | id in h.containers && LABEL_FUNCTION !in h.containers[id].labels && ValidServiceName(f) ::
      h.containers[id].name != ContainerName(f, i)
  }

  /** What not even failing calls can break: whatever carries a function label is a tracked replica of a validly named
      function, nothing else holds such a name, and the rows are well-formed. */
  ghost predicate Sound(rows: Rows, h: Host) {
    WellFormed(h) && Foreign(h) && Tracked(h)
    && (forall id, f | Owned(h, f, id) :: ValidServiceName(f))
    && (forall f | f in rows :: RowOk(f, rows[f]))
  }

  /** The two records of one function agree: its containers sit at indices below the stored replica count, and if it
      is not stored it has none. */
  ghost predicate Consistent(rows: Rows, h: Host, f: string) {
    if f in rows then Placed(h, f, rows[f].replicas) else Members(h, f) == {}
  }

  /** The store and Docker agree: each container of a stored function sits at its own index below the stored
      replica count, and a name that is not stored has no containers. */
  ghost predicate Agreement(rows: Rows, h: Host) {
    Sound(rows, h) && forall f :: Consistent(rows, h, f)
  }

  /** Every index below `n` has an active container. */
  ghost predicate Up(h: Host, service: string, n: int) {
    forall i | 0 <= i < n :: Filled(h, service, i)
  }

  /** Containers of other functions, and foreign ones, are untouched. */
  ghost predicate OthersSame(h0: Host, h1: Host, service: string) {
    (forall id | id in h0.containers && !BelongsTo(h0.containers[id], service) ::
       id in h1.containers && h1.containers[id] == h0.containers[id])
    && (forall id | id in h1.containers && !BelongsTo(h1.containers[id], service) ::
          id in h0.containers && h1.containers[id] == h0.containers[id])
  }

  /** Whatever happened to the containers of `service`, nothing else changed. */
  ghost predicate Undisturbed(rows: Rows, h0: Host, h1: Host, service: string) {
    Sound(rows, h1) && OthersSame(h0, h1, service)
  }

  lemma OthersUnchanged(h: Host, service: string)
    ensures OthersSame(h, h, service)
  {
  }

  lemma OthersChain(h0: Host, h1: Host, h2: Host, service: string)
    requires OthersSame(h0, h1, service) && OthersSame(h1, h2, service)
    ensures OthersSame(h0, h2, service)
  {
  }

  /** A request about one function keeps every other function consistent. */
  lemma OthersStayConsistent(rows0: Rows, h0: Host, rows1: Rows, h1: Host, service: string, f: string)
    requires f != service && OthersSame(h0, h1, service) && rows1 - {service} == rows0 - {service}
    requires Consistent(rows0, h0, f)
    ensures Consistent(rows1, h1, f)
  {
    hide ContainerName, TrackedAt;
    assert f in rows1 <==> f in rows1 - {service};
    assert f in rows0 <==> f in rows0 - {service};
    if f in rows1 {
      assert rows1[f] == (rows1 - {service})[f];
      forall id | Owned(h1, f, id)
        ensures PlacedBelow(h1, f, rows1[f].replicas, id)
      {
        assert Owned(h0, f, id) && PlacedBelow(h0, f, rows0[f].replicas, id);
      }
    } else {
      forall id | id in h1.containers
        ensures !BelongsTo(h1.containers[id], f)
      {
        assert id in h0.containers ==> (id in Members(h0, f) <==> BelongsTo(h0.containers[id], f));
      }
    }
  }

  /** No two containers of one function share an index: agreement gives each its own. */
  lemma AgreementSeparates(rows: Rows, h: Host)
    requires Agreement(rows, h)
    ensures AtMostOnePerIndex(h)
  {
    hide AtMostOnePerIndex, Consistent;
    TrackedIsUnique(h);
  }

  /** A request that leaves its own function consistent, and disturbs nothing else, keeps agreement. */
  lemma ServedAgrees(rows0: Rows, h0: Host, rows1: Rows, h1: Host, service: string)
    requires Agreement(rows0, h0) && Undisturbed(rows1, h0, h1, service) && rows1 - {service} == rows0 - {service}
    requires Consistent(rows1, h1, service)
    ensures Agreement(rows1, h1)
  {
    hide Sound, OthersSame, Consistent;
    forall f
      ensures Consistent(rows1, h1, f)
    {
      if f != service {
        OthersStayConsistent(rows0, h0, rows1, h1, service, f);
      }
    }
  }

  /** Whoever holds the name `service-i` is replica `i` of the service. */
  lemma HolderIsReplica(rows: Rows, h: Host, service: string, i: nat, id: Id)
    requires Sound(rows, h) && ValidServiceName(service)
    requires id in h.containers && h.containers[id].name == ContainerName(service, i)
    ensures Owned(h, service, id) && TrackedAt(h.containers[id], i) && Line(h, id).Index() == Some(i)
  {
    hide ContainerName, ValidServiceName, RowOk, IsRunningState, IsStaleState, ReplicaIndex;
    var c := h.containers[id];
    assert LABEL_FUNCTION in c.labels;
    var f := c.labels[LABEL_FUNCTION];
    var j: nat :| TrackedAt(c, j);
    NamesInjective(f, j, service, i);
  }

  lemma RowChanges(rows: Rows, h: Host, service: string, meta: Metadata)
    requires Sound(rows, h)
    ensures RowOk(service, meta) ==> Sound(rows[service := meta], h)
    ensures Sound(rows - {service}, h)
    ensures service in rows ==> RowOk(service, rows[service])
  {
    hide WellFormed, Foreign, Tracked, RowOk, ValidServiceName;
  }

  lemma ConsistentMeans(rows: Rows, h: Host, f: string)
    ensures f !in rows ==> (Consistent(rows, h, f) <==> Members(h, f) == {})
    ensures f in rows ==> (Consistent(rows, h, f) <==> Placed(h, f, rows[f].replicas))
    ensures Members(h, f) == {} ==> forall n :: Placed(h, f, n)
  {
    assert Members(h, f) == {} ==> forall id :: Owned(h, f, id) ==> id in Members(h, f);
  }

  lemma StoredCount(rows: Rows, h: Host, f: string)
    requires Sound(rows, h) && f in rows
    ensures RowOk(f, rows[f]) && rows[f].replicas >= 0
  {
    hide WellFormed, Foreign, Tracked;
  }

  /** Removing containers of a function, as far as it works, puts none of them out of place. */
  lemma RemovalsStayPlaced(h: Host, h1: Host, doomed: set<Id>, f: string)
    requires OnlyRemoves(h, h1, doomed)
    ensures forall n | Placed(h, f, n) :: Placed(h1, f, n)
  {
    hide TrackedAt;
    forall n | Placed(h, f, n)
      ensures Placed(h1, f, n)
    {
      forall id | Owned(h1, f, id)
        ensures PlacedBelow(h1, f, n, id)
      {
        StillPlaced(h, h1, f, n, id);
      }
    }
  }

  lemma StillPlaced(h: Host, h1: Host, f: string, n: int, id: Id)
    requires Placed(h, f, n) && Owned(h1, f, id) && id in h.containers
    requires h1.containers[id].name == h.containers[id].name && h1.containers[id].labels == h.containers[id].labels
    ensures PlacedBelow(h1, f, n, id)
  {
    hide TrackedAt;
    assert Owned(h, f, id) && PlacedBelow(h, f, n, id);
    var i: nat :| i < n && TrackedAt(h.containers[id], i);
    SameReplicaTracked(h.containers[id], h1.containers[id], i);
  }

  /** Nor does a change that creates replicas below `n` only, wherever it stops. */
  lemma ProgressStaysPlaced(h: Host, h1: Host, doomed: set<Id>, dep: Deployment, baseNetwork: string, indices: set<nat>,
                            n: int)
    requires Progress(h, h1, doomed, dep, baseNetwork, indices) && ReadsBack(dep)
    requires n <= MAX_INT && forall i | i in indices :: i < n
    requires Placed(h, dep.service, n)
    ensures Placed(h1, dep.service, n)
  {
    hide TrackedAt, ContainerName, ReadsBack, MAX_INT, StaleByState, BornFor;
    forall id | Owned(h1, dep.service, id)
      ensures PlacedBelow(h1, dep.service, n, id)
    {
      if id in h.containers {
        StillPlaced(h, h1, dep.service, n, id);
      } else {
        var i :| i in indices && BornFor(h1.containers[id], dep, baseNetwork, i);
        BornIsPlaced(h1, dep, baseNetwork, n, id, i);
      }
    }
  }

  /** Deploying `n` replicas over leftovers: the new count is right exactly when every leftover held one of the new
      replicas' names, and so had to go first. */
  lemma DeployedOver(rows: Rows, h: Host, h1: Host, dep: Deployment, baseNetwork: string, n: nat)
    requires Sound(rows, h) && ReadsBack(dep) && n <= MAX_INT
    requires WellFormed(h1) && Progress(h, h1, {}, dep, baseNetwork, Indices(Plan([], [], FirstIndices(n))))
    requires forall i: nat | i < n :: NewReplica(h, h1, dep, baseNetwork, i)
    ensures Placed(h1, dep.service, n) <==> Placed(h, dep.service, n)
  {
    hide TrackedAt, ContainerName, ReadsBack, MAX_INT, StaleByState, ContainerLabels, Foreign, RowOk;
    var indices := Indices(Plan([], [], FirstIndices(n)));
    if Placed(h, dep.service, n) {
      ProgressStaysPlaced(h, h1, {}, dep, baseNetwork, indices, n);
    }
    if Placed(h1, dep.service, n) {
      forall id | Owned(h, dep.service, id)
        ensures PlacedBelow(h, dep.service, n, id)
      {
        var j: nat :| TrackedAt(h.containers[id], j);
        if id in h1.containers {
          assert Owned(h1, dep.service, id) && PlacedBelow(h1, dep.service, n, id);
        } else {
          var i :| i in indices && h.containers[id].name == ContainerName(dep.service, i);
          TrackedByName(h.containers[id], dep.service, i, j);
        }
      }
    }
  }

  /** In other words, each container of the function is named as one of those replicas. */
  lemma PlacedMeansNamed(rows: Rows, h: Host, f: string, n: nat)
    requires Sound(rows, h)
    ensures Placed(h, f, n) <==>
            forall id | Owned(h, f, id) :: exists i: nat :: i < n && h.containers[id].name == ContainerName(f, i)
  {
    hide ContainerName, ReplicaIndex, MAX_INT, Foreign, RowOk, ValidServiceName;
    if forall id | Owned(h, f, id) :: exists i: nat :: i < n && h.containers[id].name == ContainerName(f, i) {
      forall id | Owned(h, f, id)
        ensures PlacedBelow(h, f, n, id)
      {
        var i: nat :| i < n && h.containers[id].name == ContainerName(f, i);
        var j: nat :| TrackedAt(h.containers[id], j);
        TrackedByName(h.containers[id], f, i, j);
      }
    }
    if Placed(h, f, n) {
      forall id | Owned(h, f, id)
        ensures exists i: nat :: i < n && h.containers[id].name == ContainerName(f, i)
      {
        assert PlacedBelow(h, f, n, id);
        var i: nat :| i < n && TrackedAt(h.containers[id], i);
        assert h.containers[id].name == ContainerName(f, i);
      }
    }
  }

  lemma TrackedByName(c: Container, service: string, i: nat, j: nat)
    requires BelongsTo(c, service) && TrackedAt(c, j) && c.name == ContainerName(service, i)
    ensures i == j
  {
    NamesInjective(service, i, service, j);
  }

  /** A scale that stops anywhere, to a target its function's count covers. */
  lemma AttemptStaysPlaced(h: Host, h1: Host, dep: Deployment, baseNetwork: string, target: int, listing: seq<Summary>,
                           plan: Plan, n: int)
    requires Attempt(h, h1, dep, baseNetwork, target, listing, plan) && ReadsBack(dep)
    requires target <= n <= MAX_INT && Placed(h, dep.service, n)
    ensures Placed(h1, dep.service, n)
  {
    hide Placed, Progress, Lists, IsPlan, ReadsBack, MAX_INT, WellFormed;
    forall i | i in Indices(plan)
      ensures i < n
    {
      MissingIsBelow(listing, target, plan, i);
    }
    ProgressStaysPlaced(h, h1, Doomed(plan), dep, baseNetwork, Indices(plan), n);
  }

  lemma UndisturbedMeans(rows: Rows, h0: Host, h1: Host, service: string)
    ensures Undisturbed(rows, h0, h1, service) ==> Sound(rows, h1)
    ensures Sound(rows, h1) && h0 == h1 ==> Undisturbed(rows, h0, h1, service)
  {
    OthersUnchanged(h0, service);
  }

  lemma UndisturbedChain(rows: Rows, h0: Host, h1: Host, h2: Host, service: string)
    requires Undisturbed(rows, h0, h1, service) && Undisturbed(rows, h1, h2, service)
    ensures Undisturbed(rows, h0, h2, service)
  {
    hide Sound, OthersSame;
    OthersChain(h0, h1, h2, service);
  }

  /** Storing or dropping the function's own row disturbs nobody else. */
  lemma RowStored(rows: Rows, h0: Host, h1: Host, service: string, meta: Metadata)
    requires Undisturbed(rows, h0, h1, service)
    ensures RowOk(service, meta) ==> Undisturbed(rows[service := meta], h0, h1, service)
    ensures Undisturbed(rows - {service}, h0, h1, service)
    ensures rows[service := meta] - {service} == rows - {service}
  {
    hide Sound, OthersSame, RowOk;
    RowChanges(rows, h1, service, meta);
  }

  lemma SoundIsWellFormed(rows: Rows, h: Host)
    requires Sound(rows, h)
    ensures WellFormed(h)
  {
  }

  /** Removing some containers of a function, and stopping others, keeps what is sound. */
  lemma RemovalsUndisturbed(rows: Rows, h: Host, h1: Host, service: string)
    requires Sound(rows, h) && WellFormed(h1) && OnlyRemoves(h, h1, Members(h, service))
    ensures Undisturbed(rows, h, h1, service)
  {
    hide ContainerName, ValidServiceName, RowOk;
    SoundAfter(rows, h, h1);
  }

  /** Soundness looks at names and labels only, holds of any part of the containers, and lets tracked ones in. */
  lemma SoundAfter(rows: Rows, h: Host, h1: Host)
    requires Sound(rows, h) && WellFormed(h1)
    requires forall id | id in h1.containers && id in h.containers ::
               h1.containers[id].name == h.containers[id].name && h1.containers[id].labels == h.containers[id].labels
    requires forall id | id in h1.containers && id !in h.containers :: IsReplica(h1.containers[id])
    ensures Sound(rows, h1)
  {
    hide ContainerName, ValidServiceName, RowOk, WellFormed, TrackedAt;
    forall id | id in h1.containers && LABEL_FUNCTION in h1.containers[id].labels
      ensures exists i: nat :: TrackedAt(h1.containers[id], i)
    {
      if id in h.containers {
        var i: nat :| TrackedAt(h.containers[id], i);
        SameReplicaTracked(h.containers[id], h1.containers[id], i);
      }
    }
    forall id, f | Owned(h1, f, id)
      ensures ValidServiceName(f)
    {
      assert id in h.containers ==> Owned(h, f, id);
    }
  }

  ghost predicate IsReplica(c: Container) {
    LABEL_FUNCTION in c.labels && ValidServiceName(c.labels[LABEL_FUNCTION]) && exists i: nat :: TrackedAt(c, i)
  }

  /** Whatever call a deploy or a scale stops at, it has disturbed nothing but its own function. */
  lemma ProgressUndisturbed(rows: Rows, h: Host, h1: Host, doomed: set<Id>, dep: Deployment, baseNetwork: string,
                            indices: set<nat>)
    requires Sound(rows, h) && WellFormed(h1) && Progress(h, h1, doomed, dep, baseNetwork, indices)
    requires ReadsBack(dep) && ValidServiceName(dep.service)
    requires doomed <= Members(h, dep.service) && forall i | i in indices :: i <= MAX_INT
    ensures Undisturbed(rows, h, h1, dep.service)
  {
    hide ContainerName, ValidServiceName, RowOk, StaleByState, ContainerLabels, MAX_INT, WellFormed, ReplicaIndex,
      IsStaleState, IsRunningState, ReadsBack;
    forall id | id in h1.containers && id !in h.containers
      ensures BelongsTo(h1.containers[id], dep.service) && IsReplica(h1.containers[id])
    {
      var i :| i in indices && BornFor(h1.containers[id], dep, baseNetwork, i);
      NewcomerTracked(h1.containers[id], dep, baseNetwork, i);
    }
    forall id | id in h.containers && id !in h1.containers
      ensures id in Members(h, dep.service)
    {
      if id !in doomed {
        var i: nat :| h.containers[id].name == ContainerName(dep.service, i);
        HolderIsReplica(rows, h, dep.service, i, id);
      }
    }
    SoundAfter(rows, h, h1);
  }

  lemma NewcomerTracked(c: Container, dep: Deployment, baseNetwork: string, i: nat)
    requires BornFor(c, dep, baseNetwork, i) && ReadsBack(dep) && i <= MAX_INT
    ensures BelongsTo(c, dep.service) && TrackedAt(c, i)
  {
    hide ContainerName, ContainerLabels, MAX_INT, ReplicaIndex, IsStaleState, IsRunningState, ReadsBack;
    BornIsRead(0, c, dep, baseNetwork, i);
  }

  /** A newborn replica is placed where it belongs. */
  lemma BornIsPlaced(h: Host, dep: Deployment, baseNetwork: string, n: int, id: Id, i: nat)
    requires id in h.containers && BornFor(h.containers[id], dep, baseNetwork, i) && ReadsBack(dep)
    requires i < n && i <= MAX_INT
    ensures PlacedBelow(h, dep.service, n, id)
  {
    hide TrackedAt, BornFor, MAX_INT;
    NewcomerTracked(h.containers[id], dep, baseNetwork, i);
  }

  /** Once the function's own containers are gone, none of its names is taken. */
  lemma ClearedIsFree(rows: Rows, h: Host, dep: Deployment, baseNetwork: string)
    requires Sound(rows, h) && ValidServiceName(dep.service) && NetworkOf(dep, baseNetwork) != ""
    ensures forall i: nat :: CanCreate(Without(h, dep.service), dep, baseNetwork, i)
    ensures WellFormed(Without(h, dep.service)) && Members(Without(h, dep.service), dep.service) == {}
    ensures OthersSame(h, Without(h, dep.service), dep.service)
  {
    hide ContainerName, ValidServiceName, RowOk, StaleByState, Sound;
    forall i: nat
      ensures !Blocked(Without(h, dep.service), dep.service, i)
    {
      forall id | id in h.containers && h.containers[id].name == ContainerName(dep.service, i)
        ensures id in Members(h, dep.service)
      {
        HolderIsReplica(rows, h, dep.service, i, id);
      }
    }
    assert WellFormed(h) by { SoundIsWellFormed(rows, h); }
  }

  /** With all its containers gone, and its row too, a function is consistent. */
  lemma DeleteServed(rows: Rows, h: Host, service: string)
    requires Sound(rows, h)
    ensures Undisturbed(rows - {service}, h, Without(h, service), service)
    ensures Consistent(rows - {service}, Without(h, service), service)
  {
    hide RowOk, ValidServiceName;
    var h1 := Without(h, service);
    assert WellFormed(h1) && OnlyRemoves(h, h1, Members(h, service));
    RemovalsUndisturbed(rows, h, h1, service);
    RowChanges(rows, h1, service, Metadata("", "", map[], 0));
  }

  lemma NewAreUp(h0: Host, h1: Host, dep: Deployment, baseNetwork: string, n: nat)
    requires ReadsBack(dep) && n <= MAX_INT && forall i: nat | i < n :: NewReplica(h0, h1, dep, baseNetwork, i)
    ensures Up(h1, dep.service, n)
  {
    hide NewReplica, ReadsBack, MAX_INT, Filled;
    forall i | 0 <= i < n
      ensures Filled(h1, dep.service, i)
    {
      NewIsFilled(h0, h1, dep, baseNetwork, i);
    }
  }

  lemma UpToCount(h: Host, service: string, replicas: int, n: nat)
    requires Up(h, service, n) && replicas <= n
    ensures Up(h, service, replicas)
  {
  }

  /** Removing and deploying anew, with any call failing. */
  lemma RedeployServed(rows: Rows, h: Host, cleared: Host, h1: Host, dep: Deployment, baseNetwork: string, n: nat)
    requires Sound(rows, h) && ReadsBack(dep) && ValidServiceName(dep.service) && n <= MAX_INT
    requires WellFormed(cleared) && OnlyRemoves(h, cleared, Members(h, dep.service))
    requires WellFormed(h1) && Progress(cleared, h1, {}, dep, baseNetwork, Indices(Plan([], [], FirstIndices(n))))
    ensures Undisturbed(rows, h, h1, dep.service)
  {
    hide Sound, WellFormed, OnlyRemoves, Progress, ReadsBack, ValidServiceName, Undisturbed, MAX_INT;
    RemovalsUndisturbed(rows, h, cleared, dep.service);
    UndisturbedMeans(rows, h, cleared, dep.service);
    ProgressUndisturbed(rows, cleared, h1, {}, dep, baseNetwork, Indices(Plan([], [], FirstIndices(n))));
    UndisturbedChain(rows, h, cleared, h1, dep.service);
  }

  /** Replicas 0 to n - 1 run, each under its name, with this image, network and user labels. */
  ghost predicate RunReplicas(h: Host, service: string, n: int, image: string, network: string,
                              labels: map<string, string>)
  {
    forall i: nat | i < n :: RunsReplica(h, service, i, image, network, labels)
  }

  ghost predicate RunsReplica(h: Host, service: string, i: nat, image: string, network: string,
                              labels: map<string, string>)
  {
    exists id | id in h.containers ::
      h.containers[id].name == ContainerName(service, i) && h.containers[id].state == Running
      && Runs(h.containers[id], image, network, labels)
  }

  lemma NewRunReplicas(h0: Host, h1: Host, dep: Deployment, baseNetwork: string, n: nat)
    requires forall i: nat | i < n :: NewReplica(h0, h1, dep, baseNetwork, i)
    requires dep.network != ""
    ensures forall m: int | m <= n :: RunReplicas(h1, dep.service, m, dep.image, dep.network, dep.labels)
  {
    hide ContainerName, ContainerLabels, Runs;
    forall i: nat | i < n
      ensures RunsReplica(h1, dep.service, i, dep.image, dep.network, dep.labels)
    {
      assert NewReplica(h0, h1, dep, baseNetwork, i);
      var id :| id in h1.containers && BornFor(h1.containers[id], dep, baseNetwork, i)
                && h1.containers[id].state == Running && h1.containers[id].status == "Up";
      ReplicaFields(h1.containers[id], dep, baseNetwork, i);
    }
  }

  /** Every container a change created is one of the indices' replicas, made as the deployment says. */
  lemma NewcomersRun(h0: Host, h1: Host, doomed: set<Id>, dep: Deployment, baseNetwork: string, indices: set<nat>,
                     n: int)
    requires Progress(h0, h1, doomed, dep, baseNetwork, indices) && dep.network != ""
    requires forall i | i in indices :: i < n
    ensures NewcomersAreReplicas(h0, h1, dep.service, n, dep.image, dep.network, dep.labels)
  {
    hide ContainerName, ContainerLabels, Runs, StaleByState;
    forall id | id in h1.containers && id !in h0.containers
      ensures Runs(h1.containers[id], dep.image, dep.network, dep.labels)
      ensures exists i: nat :: i < n && h1.containers[id].name == ContainerName(dep.service, i)
    {
      var i :| i in indices && BornFor(h1.containers[id], dep, baseNetwork, i);
      ReplicaFields(h1.containers[id], dep, baseNetwork, i);
    }
  }

  lemma ScaleNewcomersRun(h0: Host, h1: Host, dep: Deployment, baseNetwork: string, target: int, listing: seq<Summary>,
                          plan: Plan)
    requires Attempt(h0, h1, dep, baseNetwork, target, listing, plan) && dep.network != ""
    ensures NewcomersAreReplicas(h0, h1, dep.service, target, dep.image, dep.network, dep.labels)
  {
    hide Progress, Lists, IsPlan, WellFormed, NewcomersAreReplicas;
    forall i | i in Indices(plan)
      ensures i < target
    {
      MissingIsBelow(listing, target, plan, i);
    }
    NewcomersRun(h0, h1, Doomed(plan), dep, baseNetwork, Indices(plan), target);
  }

  lemma NoNewcomers(h: Host, service: string, n: int, row: Metadata)
    ensures NewcomersAreReplicas(h, h, service, n, row.image, row.network, row.labels)
  {
  }

  ghost predicate NewcomersAreReplicas(h0: Host, h1: Host, service: string, n: int, image: string, network: string,
                                       labels: map<string, string>)
  {
    forall id | id in h1.containers && id !in h0.containers ::
      Runs(h1.containers[id], image, network, labels)
      && exists i: nat :: i < n && h1.containers[id].name == ContainerName(service, i)
  }

  lemma NewIsFilled(h0: Host, h1: Host, dep: Deployment, baseNetwork: string, i: nat)
    requires NewReplica(h0, h1, dep, baseNetwork, i) && ReadsBack(dep) && i <= MAX_INT
    ensures Filled(h1, dep.service, i)
  {
    hide ContainerName, ContainerLabels, IsStaleState, IsRunningState, MAX_INT;
    var id :| id in h1.containers && BornFor(h1.containers[id], dep, baseNetwork, i)
              && h1.containers[id].state == Running && h1.containers[id].status == "Up";
    BornIsRead(id, h1.containers[id], dep, baseNetwork, i);
    assert ActiveAt(h1, dep.service, i, id);
  }

  /** Nothing can obstruct a scale: whoever holds a missing index's name is stale, and doomed. */
  lemma ScaleUnobstructed(rows: Rows, h: Host, dep: Deployment, baseNetwork: string, target: int,
                          listing: seq<Summary>, plan: Plan)
    requires Sound(rows, h) && ValidServiceName(dep.service) && NetworkOf(dep, baseNetwork) != ""
    requires Lists(h, dep.service, listing) && IsPlan(listing, target, plan)
    ensures Unobstructed(h, dep, baseNetwork, plan)
  {
    hide ContainerName, ValidServiceName, RowOk, StaleByState, Sound, IsStaleState, IsRunningState, ReplicaIndex,
      SummaryOf, Keeper, Lists;
    ListedOnce(h, dep.service, listing);
    forall i, id | i in plan.missing && id in h.containers && h.containers[id].name == ContainerName(dep.service, i)
      ensures id in Doomed(plan)
    {
      HolderIsReplica(rows, h, dep.service, i, id);
      GroupIsActive(h, dep.service, listing, i);
      assert !Filled(h, dep.service, i);
      assert !ActiveAt(h, dep.service, i, id);
      FilterCount(listing, (c: Summary) => c.Stale(), Line(h, id));
      assert Line(h, id) in multiset(listing);
      assert Line(h, id) in plan.stale <==> Line(h, id) in multiset(plan.stale);
      SummaryKeepsId(id, h.containers[id]);
    }
  }

  lemma ScaledIsPlaced(rows: Rows, h: Host, h1: Host, dep: Deployment, baseNetwork: string, n: nat,
                       listing: seq<Summary>, plan: Plan, id: Id)
    requires Sound(rows, h) && ReadsBack(dep) && n <= MAX_INT && ValidServiceName(dep.service)
    requires Attempt(h, h1, dep, baseNetwork, n, listing, plan) && Completed(h, h1, dep, baseNetwork, plan)
    requires Shape(h1, dep.service, n) && Owned(h1, dep.service, id)
    ensures PlacedBelow(h1, dep.service, n, id)
  {
    hide ContainerName, ValidServiceName, RowOk, StaleByState, IsStaleState, IsRunningState, ReplicaIndex, SummaryOf,
      Keeper, Lists, MAX_INT, IsPlan, WellFormed, IsNameOf, NewReplica, Foreign, Survives;
    OwnedAfterwards(h, h1, dep, baseNetwork, n, listing, plan, id);
    if id in h.containers {
      assert h1.containers[id] == h.containers[id];
      assert Owned(h, dep.service, id);
      var c := h.containers[id];
      assert c.labels[LABEL_FUNCTION] == dep.service;
      var i: nat :| TrackedAt(c, i);
      HolderIsReplica(rows, h, dep.service, i, id);
      assert ActiveAt(h1, dep.service, i, id);
    } else {
      var i: nat :| i in plan.missing && BornFor(h1.containers[id], dep, baseNetwork, i);
      assert i < n by { MissingIsBelow(listing, n, plan, i); }
      BornIsPlaced(h1, dep, baseNetwork, n, id, i);
    }
  }

  lemma PlanStaysAtHome(h: Host, service: string, listing: seq<Summary>, target: int, plan: Plan)
    requires WellFormed(h) && Lists(h, service, listing) && IsPlan(listing, target, plan) && target <= MAX_INT
    ensures Doomed(plan) <= Members(h, service) && forall i | i in Indices(plan) :: i <= MAX_INT
  {
    hide ContainerName, StaleByState, IsStaleState, IsRunningState, ReplicaIndex, SummaryOf, Keeper, Lists, MAX_INT,
      IsPlan, WellFormed;
    ListedOnce(h, service, listing);
    PlannedIdsExist(h, service, listing, target, plan);
    forall i | i in plan.missing
      ensures i < target
    {
      MissingIsBelow(listing, target, plan, i);
    }
  }

  /** Whichever call a scale failed at. */
  lemma AttemptUndisturbed(rows: Rows, h: Host, h1: Host, dep: Deployment, baseNetwork: string, target: int,
                           listing: seq<Summary>, plan: Plan)
    requires Sound(rows, h) && ReadsBack(dep) && target <= MAX_INT && ValidServiceName(dep.service)
    requires Attempt(h, h1, dep, baseNetwork, target, listing, plan)
    ensures Undisturbed(rows, h, h1, dep.service)
  {
    hide Sound, OthersSame, Progress, Lists, IsPlan, ReadsBack, ValidServiceName, MAX_INT, WellFormed;
    PlanStaysAtHome(h, dep.service, listing, target, plan);
    ProgressUndisturbed(rows, h, h1, Doomed(plan), dep, baseNetwork, Indices(plan));
  }

  /** A completed scale to `n` with the count stored, wherever the containers were before. */
  lemma ScaleServed(rows: Rows, h: Host, h1: Host, dep: Deployment, baseNetwork: string, n: nat, listing: seq<Summary>,
                    plan: Plan, meta: Metadata)
    requires Sound(rows, h) && ReadsBack(dep) && n <= MAX_INT && meta.replicas == n && RowOk(dep.service, meta)
    requires Attempt(h, h1, dep, baseNetwork, n, listing, plan) && Completed(h, h1, dep, baseNetwork, plan)
    ensures Undisturbed(rows[dep.service := meta], h, h1, dep.service) && Up(h1, dep.service, n)
    ensures Consistent(rows[dep.service := meta], h1, dep.service)
  {
    hide ContainerName, ValidServiceName, StaleByState, Sound, OthersSame, IsStaleState, IsRunningState,
      ReplicaIndex, SummaryOf, Keeper, Lists, MAX_INT, IsPlan, Progress, Completed, WellFormed, ReadsBack;
    ScaleConverges(h, h1, dep, baseNetwork, n, listing, plan);
    forall id | Owned(h1, dep.service, id)
      ensures PlacedBelow(h1, dep.service, n, id)
    {
      ScaledIsPlaced(rows, h, h1, dep, baseNetwork, n, listing, plan, id);
    }
    AttemptUndisturbed(rows, h, h1, dep, baseNetwork, n, listing, plan);
    RowChanges(rows, h1, dep.service, meta);
  }

  lemma EmptyIsCleared(h: Host, service: string)
    requires Members(h, service) == {}
    ensures Without(h, service) == h
  {
    assert Without(h, service).containers == h.containers;
  }

  // What failed calls can leave behind.

  lemma NewbornIsReplica(dep: Deployment, baseNetwork: string, i: nat)
    requires ReadsBack(dep) && ValidServiceName(dep.service) && i <= MAX_INT
    ensures IsReplica(Newborn(dep, baseNetwork, i)) && BelongsTo(Newborn(dep, baseNetwork, i), dep.service)
    ensures TrackedAt(Newborn(dep, baseNetwork, i), i) && !StaleByState(Newborn(dep, baseNetwork, i))
  {
    hide ContainerName, ContainerLabels, ReplicaIndex, IsStaleState, ReadsBack, ValidServiceName, TrackedAt;
    NewcomerTracked(Newborn(dep, baseNetwork, i), dep, baseNetwork, i);
    StaleStates(Newborn(dep, baseNetwork, i), 0);
  }

  /** A host with nothing but tracked replicas of valid functions is sound. */
  lemma ReplicasAreSound(rows: Rows, h: Host)
    requires WellFormed(h) && forall f | f in rows :: RowOk(f, rows[f])
    requires forall id | id in h.containers :: IsReplica(h.containers[id])
    ensures Sound(rows, h)
  {
    hide ContainerName, RowOk, ValidServiceName, TrackedAt;
  }

  /** A deploy that started its replica, could not store the row and could not remove the replica again, leaves a sound
      state in which the function is not stored and its first name is actively held. */
  lemma LeftoverOfDeploy(dep: Deployment, baseNetwork: string) returns (h: Host)
    requires ReadsBack(dep) && ValidServiceName(dep.service)
    ensures Sound(map[], h) && Blocked(h, dep.service, 0) && !Consistent(map[], h, dep.service)
  {
    hide ContainerName, ContainerLabels, ReadsBack, ValidServiceName, TrackedAt, StaleByState, MAX_INT;
    h := Host(map[0 := Newborn(dep, baseNetwork, 0)], 1);
    assert 0 <= MAX_INT by { SmallTarget(); }
    NewbornIsReplica(dep, baseNetwork, 0);
    ReplicasAreSound(map[], h);
    assert 0 in Members(h, dep.service);
  }

  /** Two replicas of a stored function; a delete that removed only the first; a deploy on top of the second, which
      works in every call. The row then says one replica, and the second one is still there. */
  lemma DeleteThenDeploy(dep: Deployment, baseNetwork: string) returns (h0: Host, h1: Host, h2: Host)
    requires ReadsBack(dep) && ValidServiceName(dep.service) && dep.network != ""
    ensures var f, row := dep.service, Metadata(dep.image, dep.network, dep.labels, 2);
            Agreement(map[f := row], h0) && OnlyRemoves(h0, h1, Members(h0, f)) && !Blocked(h1, f, 0)
            && Progress(h1, h2, {}, dep, baseNetwork, Indices(Plan([], [], FirstIndices(1))))
            && NewReplica(h1, h2, dep, baseNetwork, 0)
            && Sound(map[f := row.(replicas := 1)], h2) && !Consistent(map[f := row.(replicas := 1)], h2, f)
  {
    hide ContainerName, ContainerLabels, ReadsBack, ValidServiceName, TrackedAt, StaleByState, IsReplica, Sound,
      MAX_INT,
      Newborn, BelongsTo, Agreement, Consistent;
    SmallTarget();
    var f, row := dep.service, Metadata(dep.image, dep.network, dep.labels, 2);
    var c, d := Newborn(dep, baseNetwork, 0), Newborn(dep, baseNetwork, 1);
    h0, h1, h2 := Host(map[0 := c, 1 := d], 2), Host(map[1 := d], 2), Host(map[1 := d, 2 := c], 3);
    NewbornIsReplica(dep, baseNetwork, 0);
    NewbornIsReplica(dep, baseNetwork, 1);
    NewbornIsBorn(dep, baseNetwork);
    SameLabelsReadBack(dep, DeploymentOf(f, row));
    SameLabelsReadBack(dep, DeploymentOf(f, row.(replicas := 1)));
    ReplicasAreSound(map[f := row], h0);
    ReplicasAreSound(map[f := row.(replicas := 1)], h2);
    TwoReplicasAgree(map[f := row], h0, f, c, d);
    SecondIsLeft(map[f := row.(replicas := 1)], h2, f, d);
    assert BornFor(h2.containers[2], dep, baseNetwork, 0);
  }

  lemma NewbornIsBorn(dep: Deployment, baseNetwork: string)
    ensures forall i: nat :: BornFor(Newborn(dep, baseNetwork, i), dep, baseNetwork, i)
    ensures forall i: nat ::
              Newborn(dep, baseNetwork, i).state == Running && Newborn(dep, baseNetwork, i).status == "Up"
    ensures Newborn(dep, baseNetwork, 0).name == ContainerName(dep.service, 0)
    ensures Newborn(dep, baseNetwork, 1).name == ContainerName(dep.service, 1)
    ensures ContainerName(dep.service, 0) != ContainerName(dep.service, 1)
  {
    hide ContainerName, ContainerLabels;
    NamesDiffer(dep.service, 0, 1);
  }

  lemma SecondIsLeft(rows: Rows, h: Host, f: string, d: Container)
    requires Sound(rows, h) && f in rows && rows[f].replicas == 1
    requires 1 in h.containers && h.containers[1] == d && BelongsTo(d, f) && TrackedAt(d, 1)
    ensures !Consistent(rows, h, f)
  {
    hide Sound, ContainerName, ReplicaIndex, MAX_INT;
    assert Owned(h, f, 1);
  }

  lemma SameLabelsReadBack(a: Deployment, b: Deployment)
    requires a.labels == b.labels && a.service == b.service && ReadsBack(a)
    ensures ReadsBack(b)
  {
  }

  lemma TwoReplicasAgree(rows: Rows, h: Host, f: string, c: Container, d: Container)
    requires Sound(rows, h) && h.containers == map[0 := c, 1 := d] && rows.Keys == {f} && rows[f].replicas == 2
    requires BelongsTo(c, f) && BelongsTo(d, f) && TrackedAt(c, 0) && TrackedAt(d, 1)
    ensures Agreement(rows, h)
  {
    hide Sound, TrackedAt;
    forall g
      ensures Consistent(rows, h, g)
    {
      if g == f {
        assert TrackedAt(h.containers[0], 0) && TrackedAt(h.containers[1], 1);
        assert Owned(h, f, 0) && Owned(h, f, 1);
        var zero: nat, one: nat := 0, 1;
        assert zero < 2 && one < 2 && PlacedBelow(h, f, 2, 0) && PlacedBelow(h, f, 2, 1);
      } else {
        assert forall id | id in h.containers :: !BelongsTo(h.containers[id], g);
      }
    }
  }
}
