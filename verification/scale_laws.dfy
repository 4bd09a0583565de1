/** What scaling a function achieves: convergence, a fixpoint, protected replicas, and retries. */
module ScaleLaws {
  import opened GoText
  import opened ReplicaNames
  import opened ReplicaPlan
  import opened ReplicaPlanLaws
  import opened DockerDaemon
  import opened DockerProvider

  ghost function Line(h: Host, id: Id): Summary
    requires id in h.containers
  {
    SummaryOf(id, h.containers[id])
  }

  ghost predicate Owned(h: Host, service: string, id: Id) {
    id in h.containers && BelongsTo(h.containers[id], service)
  }

  ghost predicate ActiveAt(h: Host, service: string, i: int, id: Id) {
    Owned(h, service, id) && Line(h, id).ActiveAt(i)
  }

  /** The target shape: every container of the function is active, exactly one at each index below the target,
      none at or above it, and none without an index when the target is 0. */
  ghost predicate Shape(h: Host, service: string, target: int) {
    (forall id | Owned(h, service, id) :: !Line(h, id).Stale() && (Line(h, id).Index().None? ==> target != 0))
    && (forall id, i | ActiveAt(h, service, i, id) :: i < target)
    && (forall a, b, i | ActiveAt(h, service, i, a) && ActiveAt(h, service, i, b) :: a == b)
    && (forall i | 0 <= i < target :: Filled(h, service, i))
  }

  ghost predicate Filled(h: Host, service: string, i: int) {
    exists id :: ActiveAt(h, service, i, id)
  }

  /** The user labels do not hide what the provider reads back: they leave the function label as it is, and any
      replica label of theirs does not parse, so that the index is read from the name. */
  predicate ReadsBack(dep: Deployment) {
    (LABEL_FUNCTION in dep.labels ==> dep.labels[LABEL_FUNCTION] == dep.service)
    && (LABEL_REPLICA in dep.labels ==> Atoi(TrimSpace(dep.labels[LABEL_REPLICA])).None?)
  }

  /** One call of ScaleFunction, as its contract describes it. */
  ghost predicate Attempt(h0: Host, h1: Host, dep: Deployment, baseNetwork: string, target: int,
                          listing: seq<Summary>, plan: Plan) {
    WellFormed(h0) && WellFormed(h1)
    && Lists(h0, dep.service, listing) && IsPlan(listing, target, plan)
    && Progress(h0, h1, Doomed(plan), dep, baseNetwork, Indices(plan))
  }

  lemma ListedOnce(h: Host, service: string, listing: seq<Summary>)
    requires Lists(h, service, listing)
    ensures DistinctIds(listing)
    ensures forall id | Owned(h, service, id) :: Line(h, id) in listing
    ensures forall s | s in listing :: Owned(h, service, s.id) && s == Line(h, s.id)
  {
    hide SummaryOf;
  }

  /** A container this provider creates is read back as belonging to its function and index. */
  lemma BornIsRead(id: Id, c: Container, dep: Deployment, baseNetwork: string, i: nat)
    requires BornFor(c, dep, baseNetwork, i) && ReadsBack(dep) && i <= MAX_INT
    ensures BelongsTo(c, dep.service) && SummaryOf(id, c).Index() == Some(i)
    ensures c.state == Running && c.status == "Up" ==> !SummaryOf(id, c).Stale()
  {
    hide Atoi, TrimSpace, ParseReplicaIndex, ContainerName, Decimal, IsStaleState, IsRunningState;
    var names := ["/" + c.name];
    assert SummaryOf(id, c).names == names;
    if LABEL_REPLICA in dep.labels {
      assert c.labels[LABEL_REPLICA] == dep.labels[LABEL_REPLICA];
      NameParsesBack(dep.service, i);
    } else {
      LabelParsesBack(c.labels, names, i);
    }
    UpIsNotStale();
  }

  lemma UpIsNotStale()
    ensures !IsStaleState("running", "Up")
  {
    assert TrimSpace("running") == "running" && ToLower("running") == "running";
    assert |ToLower(TrimSpace("Up"))| == 2;
  }

  /** What a plan spares is exactly what survives. */
  lemma SparedSurvives(listing: seq<Summary>, target: int, plan: Plan, c: Summary)
    requires IsPlan(listing, target, plan) && DistinctIds(listing) && c in listing
    requires forall s | s in plan.stale + plan.active :: s in listing
    ensures Survives(listing, target, c) <==> c.id !in Doomed(plan)
  {
    hide IsRunningState, IsStaleState, ReplicaIndex, Keeper, Filter;
    FilterCount(listing, (c: Summary) => c.Stale(), c);
    RemovalOrSurvival(listing, target, c);
    assert c in multiset(listing);
    assert c in plan.stale <==> c in multiset(plan.stale);
    assert c in plan.active <==> c in multiset(plan.active);
    DistinctCount(listing, c, c);
    assert c.id in Doomed(plan) <==> c in plan.stale + plan.active by {
      forall s | s in plan.stale + plan.active && s.id == c.id
        ensures s == c
      {
        DistinctCount(listing, c, s);
      }
    }
  }

  /** In every state of an attempt, failed or not, every surviving container is still there and untouched. */
  lemma SurvivorsStay(h0: Host, h: Host, dep: Deployment, baseNetwork: string, target: int,
                      listing: seq<Summary>, plan: Plan)
    requires Attempt(h0, h, dep, baseNetwork, target, listing, plan)
    ensures forall c | c in listing && Survives(listing, target, c) ::
              c.id in h.containers && h.containers[c.id] == h0.containers[c.id]
  {
    hide IsRunningState, IsStaleState, ReplicaIndex, Keeper, StaleByState, IsNameOf, SummaryOf, WellFormed;
    ListedOnce(h0, dep.service, listing);
    PlannedIdsExist(h0, dep.service, listing, target, plan);
    forall c | c in listing && Survives(listing, target, c)
      ensures c.id in h.containers && h.containers[c.id] == h0.containers[c.id]
    {
      SparedSurvives(listing, target, plan, c);
      StaleStates(h0.containers[c.id], c.id);
    }
  }

  /** An active container without an index survives every attempt to a target other than 0, whatever happens. */
  lemma UnindexedStay(h0: Host, h: Host, dep: Deployment, baseNetwork: string, target: int, listing: seq<Summary>,
                      plan: Plan, id: Id)
    requires Attempt(h0, h, dep, baseNetwork, target, listing, plan) && target != 0
    requires Owned(h0, dep.service, id) && !Line(h0, id).Stale() && Line(h0, id).Index().None?
    ensures id in h.containers && h.containers[id] == h0.containers[id]
  {
    hide IsRunningState, IsStaleState, ReplicaIndex, Keeper, SummaryOf, Progress;
    ListedOnce(h0, dep.service, listing);
    SurvivorsStay(h0, h, dep, baseNetwork, target, listing, plan);
    SummaryKeepsId(id, h0.containers[id]);
    assert Survives(listing, target, Line(h0, id));
  }

  /** Membership in the planner's group is being active at that index on the host. */
  lemma GroupIsActive(h: Host, service: string, listing: seq<Summary>, i: int)
    requires Lists(h, service, listing)
    ensures forall id | ActiveAt(h, service, i, id) :: Line(h, id) in Group(listing, i)
    ensures forall s | s in Group(listing, i) :: ActiveAt(h, service, i, s.id) && s == Line(h, s.id)
    ensures Filled(h, service, i) <==> Group(listing, i) != []
  {
    hide IsRunningState, IsStaleState, ReplicaIndex, Keeper, Filter, SummaryOf;
    ListedOnce(h, service, listing);
    forall s: Summary
      ensures s in Group(listing, i) <==> s in listing && s.ActiveAt(i)
    {
      GroupCount(listing, i, s);
    }
    assert Group(listing, i) != [] ==> Group(listing, i)[0] in Group(listing, i);
  }

  /** Whoever is at an index after an attempt was there before, or the index was missing and has just been created. */
  lemma OnlyMissingAreCreated(h0: Host, h: Host, dep: Deployment, baseNetwork: string, target: int,
                              listing: seq<Summary>, plan: Plan, id: Id, i: int)
    requires Attempt(h0, h, dep, baseNetwork, target, listing, plan) && ReadsBack(dep) && target <= MAX_INT
    requires ActiveAt(h, dep.service, i, id)
    ensures (ActiveAt(h0, dep.service, i, id) && h.containers[id] == h0.containers[id])
            || (id !in h0.containers && i in plan.missing && h.containers[id].name == ContainerName(dep.service, i))
  {
    hide IsRunningState, IsStaleState, ReplicaIndex, Keeper, Filter, ContainerName, IsNameOf, WellFormed, Lists,
      MAX_INT;
    if id !in h0.containers {
      var j :| j in Indices(plan) && BornFor(h.containers[id], dep, baseNetwork, j);
      BornIsRead(id, h.containers[id], dep, baseNetwork, j);
    } else if h.containers[id] != h0.containers[id] {
      StaleStates(h.containers[id], id);
      assert false;
    }
  }

  /** After a completed attempt, a container of the function is a survivor of the plan or a fresh running replica. */
  lemma OwnedAfterwards(h0: Host, h1: Host, dep: Deployment, baseNetwork: string, target: int,
                        listing: seq<Summary>, plan: Plan, id: Id)
    requires Attempt(h0, h1, dep, baseNetwork, target, listing, plan) && ReadsBack(dep) && target <= MAX_INT
    requires Completed(h0, h1, dep, baseNetwork, plan) && Owned(h1, dep.service, id)
    ensures !Line(h1, id).Stale()
    ensures id in h0.containers ==> Line(h1, id) in listing && Survives(listing, target, Line(h1, id))
    ensures id !in h0.containers ==> exists i | i in plan.missing :: ActiveAt(h1, dep.service, i, id)
  {
    hide IsRunningState, IsStaleState, ReplicaIndex, Keeper, Filter, ContainerName, IsNameOf, MAX_INT, SummaryOf,
      BornFor, NewReplica;
    ListedOnce(h0, dep.service, listing);
    PlannedIdsExist(h0, dep.service, listing, target, plan);
    if id in h0.containers {
      SparedSurvives(listing, target, plan, Line(h0, id));
      SummaryKeepsId(id, h0.containers[id]);
    } else {
      var i := NewcomerRuns(h0, h1, dep, baseNetwork, target, plan, id);
    }
  }

  lemma NewcomerRuns(h0: Host, h1: Host, dep: Deployment, baseNetwork: string, target: int, plan: Plan, id: Id)
    returns (i: nat)
    requires WellFormed(h1) && Progress(h0, h1, Doomed(plan), dep, baseNetwork, Indices(plan))
    requires Completed(h0, h1, dep, baseNetwork, plan) && ReadsBack(dep)
    requires forall i | i in plan.missing :: i <= MAX_INT
    requires id in h1.containers && id !in h0.containers
    ensures i in plan.missing && ActiveAt(h1, dep.service, i, id)
  {
    hide IsRunningState, IsStaleState, ReplicaIndex, ContainerName, IsNameOf, MAX_INT, SummaryOf, StaleByState,
      ContainerLabels;
    i :| i in Indices(plan) && BornFor(h1.containers[id], dep, baseNetwork, i);
    assert NewReplica(h0, h1, dep, baseNetwork, i);
    BornIsRead(id, h1.containers[id], dep, baseNetwork, i);
  }

  /** Convergence: whatever the containers were, a completed ScaleFunction leaves the target shape. */
  lemma ScaleConverges(h0: Host, h1: Host, dep: Deployment, baseNetwork: string, target: int,
                       listing: seq<Summary>, plan: Plan)
    requires Attempt(h0, h1, dep, baseNetwork, target, listing, plan) && ReadsBack(dep) && target <= MAX_INT
    requires Completed(h0, h1, dep, baseNetwork, plan)
    ensures Shape(h1, dep.service, target)
  {
    hide IsRunningState, IsStaleState, ReplicaIndex, Keeper, Filter, ContainerName, IsNameOf, MAX_INT, SummaryOf,
      Progress, Completed, BornFor, IsPlan;
    ListedOnce(h0, dep.service, listing);
    forall id | Owned(h1, dep.service, id)
      ensures !Line(h1, id).Stale() && (Line(h1, id).Index().None? ==> target != 0)
      ensures forall i | ActiveAt(h1, dep.service, i, id) :: i < target
    {
      OwnedAfterwards(h0, h1, dep, baseNetwork, target, listing, plan, id);
      if id !in h0.containers {
        var i :| i in plan.missing && ActiveAt(h1, dep.service, i, id);
        assert i < target by { MissingIsBelow(listing, target, plan, i); }
      }
    }
    forall a, b, i | ActiveAt(h1, dep.service, i, a) && ActiveAt(h1, dep.service, i, b)
      ensures a == b
    {
      OnePerIndex(h0, h1, dep, baseNetwork, target, listing, plan, i, a, b);
    }
    forall i | 0 <= i < target
      ensures Filled(h1, dep.service, i)
    {
      EveryIndexFilled(h0, h1, dep, baseNetwork, target, listing, plan, i);
    }
  }

  lemma MissingIsBelow(listing: seq<Summary>, target: int, plan: Plan, i: int)
    requires IsPlan(listing, target, plan) && i in plan.missing
    ensures 0 <= i < target
  {
  }

  lemma OnePerIndex(h0: Host, h1: Host, dep: Deployment, baseNetwork: string, target: int,
                    listing: seq<Summary>, plan: Plan, i: int, a: Id, b: Id)
    requires Attempt(h0, h1, dep, baseNetwork, target, listing, plan) && ReadsBack(dep) && target <= MAX_INT
    requires Completed(h0, h1, dep, baseNetwork, plan)
    requires ActiveAt(h1, dep.service, i, a) && ActiveAt(h1, dep.service, i, b)
    ensures a == b
  {
    hide IsRunningState, IsStaleState, ReplicaIndex, Keeper, Filter, ContainerName, IsNameOf, MAX_INT, SummaryOf,
      Progress, Completed, BornFor;
    OnlyMissingAreCreated(h0, h1, dep, baseNetwork, target, listing, plan, a, i);
    OnlyMissingAreCreated(h0, h1, dep, baseNetwork, target, listing, plan, b, i);
    GroupIsActive(h0, dep.service, listing, i);
    if a in h0.containers && b in h0.containers {
      OwnedAfterwards(h0, h1, dep, baseNetwork, target, listing, plan, a);
      OwnedAfterwards(h0, h1, dep, baseNetwork, target, listing, plan, b);
      SummaryKeepsId(a, h1.containers[a]);
      SummaryKeepsId(b, h1.containers[b]);
    }
  }

  lemma EveryIndexFilled(h0: Host, h1: Host, dep: Deployment, baseNetwork: string, target: int,
                         listing: seq<Summary>, plan: Plan, i: int)
    requires Attempt(h0, h1, dep, baseNetwork, target, listing, plan) && ReadsBack(dep) && target <= MAX_INT
    requires Completed(h0, h1, dep, baseNetwork, plan) && 0 <= i < target
    ensures Filled(h1, dep.service, i)
  {
    hide IsRunningState, IsStaleState, ReplicaIndex, Keeper, Filter, ContainerName, IsNameOf, MAX_INT, SummaryOf,
      Progress;
    if i in plan.missing {
      var newcomer :| newcomer in h1.containers && BornFor(h1.containers[newcomer], dep, baseNetwork, i)
                   && h1.containers[newcomer].state == Running && h1.containers[newcomer].status == "Up";
      BornIsRead(newcomer, h1.containers[newcomer], dep, baseNetwork, i);
      assert ActiveAt(h1, dep.service, i, newcomer);
    } else {
      KeeperStays(h0, h1, dep, baseNetwork, target, listing, plan, i);
    }
  }

  /** In every state of an attempt the keeper of each filled index below the target is still there, untouched. */
  lemma KeeperStays(h0: Host, h: Host, dep: Deployment, baseNetwork: string, target: int,
                    listing: seq<Summary>, plan: Plan, i: int)
    requires Attempt(h0, h, dep, baseNetwork, target, listing, plan)
    requires i < target && Group(listing, i) != []
    ensures var k := Keeper(Group(listing, i));
            ActiveAt(h0, dep.service, i, k.id) && ActiveAt(h, dep.service, i, k.id)
            && h.containers[k.id] == h0.containers[k.id] && k == Line(h0, k.id)
  {
    hide IsRunningState, IsStaleState, ReplicaIndex, Keeper, Filter, ContainerName, IsNameOf, SummaryOf, Progress,
      Group;
    var k := Keeper(Group(listing, i));
    KeeperIsMember(listing, i);
    GroupIsActive(h0, dep.service, listing, i);
    SurvivorsStay(h0, h, dep, baseNetwork, target, listing, plan);
    assert Survives(listing, target, k);
  }

  /** The shape is the fixpoint: planning again finds nothing to do exactly when the shape holds. */
  lemma ShapeIffNothingToDo(h: Host, service: string, target: int, listing: seq<Summary>, plan: Plan)
    requires Lists(h, service, listing) && IsPlan(listing, target, plan)
    ensures Shape(h, service, target) <==> plan == Plan([], [], [])
  {
    hide IsRunningState, IsStaleState, ReplicaIndex, Keeper, Filter, SummaryOf, IsPlan;
    ListedOnce(h, service, listing);
    EmptyPlanIffSettled(listing, target, plan);
    if Settled(listing, target) {
      SettledIsShape(h, service, target, listing);
    }
    if Shape(h, service, target) {
      ShapeIsSettled(h, service, target, listing);
    }
  }

  lemma ShapeIsSettled(h: Host, service: string, target: int, listing: seq<Summary>)
    requires Lists(h, service, listing) && Shape(h, service, target)
    ensures Settled(listing, target)
  {
    hide IsRunningState, IsStaleState, ReplicaIndex, Keeper, Filter, SummaryOf, Group;
    ListedOnce(h, service, listing);
    forall i | 0 <= i < target
      ensures Group(listing, i) != []
    {
      GroupIsActive(h, service, listing, i);
    }
    forall c, d, i | c in listing && d in listing && c.ActiveAt(i) && d.ActiveAt(i)
      ensures c == d
    {
      assert ActiveAt(h, service, i, c.id) && ActiveAt(h, service, i, d.id);
    }
    forall c, i | c in listing && c.ActiveAt(i)
      ensures i < target
    {
      assert ActiveAt(h, service, i, c.id);
    }
  }

  lemma SettledIsShape(h: Host, service: string, target: int, listing: seq<Summary>)
    requires Lists(h, service, listing) && Settled(listing, target)
    ensures Shape(h, service, target)
  {
    hide IsRunningState, IsStaleState, ReplicaIndex, Keeper, Filter, SummaryOf, Group;
    ListedOnce(h, service, listing);
    forall i | 0 <= i < target
      ensures Filled(h, service, i)
    {
      GroupIsActive(h, service, listing, i);
    }
    forall a, b, i | ActiveAt(h, service, i, a) && ActiveAt(h, service, i, b)
      ensures a == b
    {
      SummaryKeepsId(a, h.containers[a]);
      SummaryKeepsId(b, h.containers[b]);
      assert Line(h, a) == Line(h, b);
    }
  }

  /** `id` is ranked at least as high as every active container at its index. */
  ghost predicate TopAt(h: Host, service: string, i: int, id: Id) {
    ActiveAt(h, service, i, id)
    && forall other | ActiveAt(h, service, i, other) :: !Outranks(Line(h, other).Standing(), Line(h, id).Standing())
  }

  /** One try: it did nothing (the listing failed), or it is an attempt that got some way. */
  ghost predicate Try(h0: Host, h1: Host, dep: Deployment, baseNetwork: string, target: int) {
    h1 == h0 || exists listing, plan :: Attempt(h0, h1, dep, baseNetwork, target, listing, plan)
  }

  /** Index `i` in `h` holds only containers that `h0` had there, and one of `h0`'s highest-ranked among them. */
  ghost predicate Preserved(h0: Host, h: Host, service: string, i: int) {
    (forall id | ActiveAt(h, service, i, id) :: ActiveAt(h0, service, i, id) && h.containers[id] == h0.containers[id])
    && exists id :: ActiveAt(h, service, i, id) && TopAt(h0, service, i, id)
  }

  lemma TryPreserves(h0: Host, h1: Host, h2: Host, dep: Deployment, baseNetwork: string, target: int, i: int)
    requires ReadsBack(dep) && target <= MAX_INT && i < target
    requires Preserved(h0, h1, dep.service, i) && Try(h1, h2, dep, baseNetwork, target)
    ensures Preserved(h0, h2, dep.service, i)
  {
    hide IsRunningState, IsStaleState, ReplicaIndex, Keeper, Filter, SummaryOf, IsPlan, Progress, MAX_INT, Lists,
      WellFormed;
    if h1 != h2 {
      var listing, plan :| Attempt(h1, h2, dep, baseNetwork, target, listing, plan);
      GroupIsActive(h1, dep.service, listing, i);
      assert i !in plan.missing by { FilledIsNotMissing(listing, target, plan, i); }
      forall id | ActiveAt(h2, dep.service, i, id)
        ensures ActiveAt(h1, dep.service, i, id) && h2.containers[id] == h1.containers[id]
      {
        OnlyMissingAreCreated(h1, h2, dep, baseNetwork, target, listing, plan, id, i);
      }
      KeeperStays(h1, h2, dep, baseNetwork, target, listing, plan, i);
      var k := Keeper(Group(listing, i));
      var top :| ActiveAt(h1, dep.service, i, top) && TopAt(h0, dep.service, i, top);
      KeeperIsTop(Group(listing, i), Line(h1, top));
      assert TopAt(h0, dep.service, i, k.id);
    }
  }

  lemma FilledIsNotMissing(listing: seq<Summary>, target: int, plan: Plan, i: int)
    requires IsPlan(listing, target, plan) && Group(listing, i) != []
    ensures i !in plan.missing
  {
  }

  /** Retry convergence: in every state of any number of tries, failed at any call, the replicas that were up are still
      served by one of the best of them; and once a try completes, the function has the target shape. */
  lemma RetryConverges(hosts: seq<Host>, dep: Deployment, baseNetwork: string, target: int,
                       listing: seq<Summary>, plan: Plan)
    requires ReadsBack(dep) && target <= MAX_INT && |hosts| >= 2
    requires forall n | 0 <= n < |hosts| - 1 :: Try(hosts[n], hosts[n + 1], dep, baseNetwork, target)
    requires Attempt(hosts[|hosts| - 2], hosts[|hosts| - 1], dep, baseNetwork, target, listing, plan)
    requires Completed(hosts[|hosts| - 2], hosts[|hosts| - 1], dep, baseNetwork, plan)
    ensures Shape(hosts[|hosts| - 1], dep.service, target)
    ensures forall n, h, i | 0 <= n < |hosts| && Try(hosts[n], h, dep, baseNetwork, target) && i < target
                             && Filled(hosts[0], dep.service, i) ::
              Preserved(hosts[0], h, dep.service, i)
  {
    hide IsRunningState, IsStaleState, ReplicaIndex, Keeper, Filter, SummaryOf, IsPlan, Progress, MAX_INT, Lists,
      WellFormed, Completed;
    ScaleConverges(hosts[|hosts| - 2], hosts[|hosts| - 1], dep, baseNetwork, target, listing, plan);
    forall n, h, i | 0 <= n < |hosts| && Try(hosts[n], h, dep, baseNetwork, target) && i < target
                     && Filled(hosts[0], dep.service, i)
      ensures Preserved(hosts[0], h, dep.service, i)
    {
      TriesPreserve(hosts, n, dep, baseNetwork, target, i);
      TryPreserves(hosts[0], hosts[n], h, dep, baseNetwork, target, i);
    }
  }

  lemma {:induction false} TriesPreserve(hosts: seq<Host>, n: nat, dep: Deployment, baseNetwork: string, target: int,
                                         i: int)
    requires ReadsBack(dep) && target <= MAX_INT && i < target && n < |hosts|
    requires forall m | 0 <= m < |hosts| - 1 :: Try(hosts[m], hosts[m + 1], dep, baseNetwork, target)
    requires Filled(hosts[0], dep.service, i)
    ensures Preserved(hosts[0], hosts[n], dep.service, i)
  {
    hide IsRunningState, IsStaleState, ReplicaIndex, SummaryOf, MAX_INT, Try;
    if n == 0 {
      TopExists(hosts[0], dep.service, i);
    } else {
      TriesPreserve(hosts, n - 1, dep, baseNetwork, target, i);
      assert Try(hosts[n - 1], hosts[n - 1 + 1], dep, baseNetwork, target);
      TryPreserves(hosts[0], hosts[n - 1], hosts[n], dep, baseNetwork, target, i);
    }
  }

  /** A filled index has a highest-ranked container. */
  lemma TopExists(h: Host, service: string, i: int)
    requires Filled(h, service, i)
    ensures exists id :: TopAt(h, service, i, id)
  {
    hide IsRunningState, IsStaleState, ReplicaIndex, SummaryOf;
    var id :| ActiveAt(h, service, i, id);
    var top := ClimbToTop(h, service, i, id, h.containers.Keys);
  }

  /** Walks through the containers, moving to a higher-ranked one whenever it meets it. */
  lemma {:induction false} ClimbToTop(h: Host, service: string, i: int, id: Id, unseen: set<Id>) returns (top: Id)
    requires ActiveAt(h, service, i, id) && unseen <= h.containers.Keys
    requires forall other | ActiveAt(h, service, i, other) && other !in unseen ::
               !Outranks(Line(h, other).Standing(), Line(h, id).Standing())
    ensures TopAt(h, service, i, top)
    decreases unseen
  {
    hide IsRunningState, IsStaleState, ReplicaIndex, SummaryOf;
    if next :| next in unseen {
      if ActiveAt(h, service, i, next) && Outranks(Line(h, next).Standing(), Line(h, id).Standing()) {
        top := ClimbToTop(h, service, i, next, unseen - {next});
      } else {
        top := ClimbToTop(h, service, i, id, unseen - {next});
      }
    } else {
      top := id;
    }
  }

  /** `h0` is the host before the tries, `h` one of the states in them: every index that was filled is preserved. */
  ghost predicate AllPreserved(h0: Host, h: Host, service: string, target: int) {
    forall i | i < target && Filled(h0, service, i) :: Preserved(h0, h, service, i)
  }

  lemma TryPreservesAll(h0: Host, h1: Host, h2: Host, dep: Deployment, baseNetwork: string, target: int)
    requires ReadsBack(dep) && target <= MAX_INT
    requires AllPreserved(h0, h1, dep.service, target) && Try(h1, h2, dep, baseNetwork, target)
    ensures AllPreserved(h0, h2, dep.service, target)
  {
    hide Try, Preserved, ReadsBack, MAX_INT, Filled;
    forall i | i < target && Filled(h0, dep.service, i)
      ensures Preserved(h0, h2, dep.service, i)
    {
      TryPreserves(h0, h1, h2, dep, baseNetwork, target, i);
    }
  }

  lemma StartPreserved(h: Host, service: string, target: int)
    ensures AllPreserved(h, h, service, target)
  {
    hide ActiveAt;
    forall i | i < target && Filled(h, service, i)
      ensures Preserved(h, h, service, i)
    {
      TopExists(h, service, i);
    }
  }

  /** Scales until it works, at most `tries` times. Whichever calls fail, in every state Docker goes through each index
      that was filled at the start is served by one of its best containers, and success means the target shape. */
  method ScaleUntilDone(p: Provider, dep: Deployment, target: int, tries: nat) returns (ok: bool)
    requires p.Valid() && ReadsBack(dep) && target <= MAX_INT
    modifies p.daemon
    ensures p.Valid() && old(p.daemon.seen) <= p.daemon.seen
    ensures ok ==> Shape(p.daemon.host, dep.service, target)
    ensures forall k | |old(p.daemon.seen)| <= k < |p.daemon.seen| ::
              AllPreserved(old(p.daemon.host), p.daemon.seen[k], dep.service, target)
    ensures AllPreserved(old(p.daemon.host), p.daemon.host, dep.service, target)
  {
    hide Shape, AllPreserved, ReadsBack, MAX_INT, Lists, IsPlan, Progress, WellFormed, Completed, Unobstructed;
    ghost var h0, from := p.daemon.host, |p.daemon.seen|;
    StartPreserved(h0, dep.service, target);
    ok := false;
    for n := 0 to tries
      invariant p.Valid() && old(p.daemon.seen) <= p.daemon.seen && !ok
      invariant AllPreserved(h0, p.daemon.host, dep.service, target)
      invariant forall k | from <= k < |p.daemon.seen| :: AllPreserved(h0, p.daemon.seen[k], dep.service, target)
    {
      ghost var h1, seen1 := p.daemon.host, p.daemon.seen;
      var done, planned, listing, plan := p.ScaleFunction(dep, target);
      if planned {
        forall k | |seen1| <= k < |p.daemon.seen|
          ensures AllPreserved(h0, p.daemon.seen[k], dep.service, target)
        {
          assert Attempt(h1, p.daemon.seen[k], dep, p.network, target, listing, plan);
          TryPreservesAll(h0, h1, p.daemon.seen[k], dep, p.network, target);
        }
        assert Attempt(h1, p.daemon.host, dep, p.network, target, listing, plan);
        TryPreservesAll(h0, h1, p.daemon.host, dep, p.network, target);
      }
      if done {
        ScaleConverges(h1, p.daemon.host, dep, p.network, target, listing, plan);
        return true;
      }
    }
  }

  /** Nothing of the function sits at a negative index. */
  ghost predicate NoNegativeIndex(h: Host, service: string) {
    forall id, i | ActiveAt(h, service, i, id) :: 0 <= i
  }

  /** A completed scale occupies exactly the indices 0 to target - 1 if and only if no active replica carried a
      negative index label before: such an index is neither missing nor excess, so its keeper is never removed. */
  lemma NegativeIndexSurvives(h0: Host, h1: Host, dep: Deployment, baseNetwork: string, target: int,
                              listing: seq<Summary>, plan: Plan)
    requires Attempt(h0, h1, dep, baseNetwork, target, listing, plan) && ReadsBack(dep) && 0 <= target <= MAX_INT
    requires Completed(h0, h1, dep, baseNetwork, plan)
    ensures NoNegativeIndex(h1, dep.service) <==> NoNegativeIndex(h0, dep.service)
    ensures NoNegativeIndex(h0, dep.service) ==>
              forall i :: Filled(h1, dep.service, i) <==> 0 <= i < target
    ensures forall i | i < 0 && Filled(h0, dep.service, i) :: Preserved(h0, h1, dep.service, i)
  {
    hide IsRunningState, IsStaleState, ReplicaIndex, Keeper, Filter, SummaryOf, IsPlan, Progress, Completed, MAX_INT;
    ScaleConverges(h0, h1, dep, baseNetwork, target, listing, plan);
    forall i | i < 0 && Filled(h0, dep.service, i)
      ensures Preserved(h0, h1, dep.service, i)
    {
      TopExists(h0, dep.service, i);
      TryPreserves(h0, h0, h1, dep, baseNetwork, target, i);
    }
    forall id, i | ActiveAt(h0, dep.service, i, id) && i < 0
      ensures !NoNegativeIndex(h1, dep.service)
    {
      GroupIsActive(h0, dep.service, listing, i);
      KeeperStays(h0, h1, dep, baseNetwork, target, listing, plan, i);
    }
    forall id, i | ActiveAt(h1, dep.service, i, id) && i < 0
      ensures !NoNegativeIndex(h0, dep.service)
    {
      OnlyMissingAreCreated(h0, h1, dep, baseNetwork, target, listing, plan, id, i);
    }
  }

  /** Such a replica can be: nothing but its own label says where a running container sits. */
  lemma NegativeIndexExists() returns (h: Host)
    ensures WellFormed(h) && ActiveAt(h, "f", -1, 0) && !NoNegativeIndex(h, "f")
  {
    hide IsStaleState, TrimSpace;
    var c := Container("x", "image", "net", map[LABEL_FUNCTION := "f", LABEL_REPLICA := "-1"], Running, "Up", 0);
    h := Host(map[0 := c], 1);
    assert Atoi("-1") == Some(-1) by {
      assert "-1"[1..] == "1" && DigitsValue("1") == 1;
    }
    TrimSpaceKeeps("-1");
    UpIsNotStale();
    assert ReplicaIndex(c.labels, ["/x"]) == Some(-1);
    assert ActiveAt(h, "f", -1, 0);
  }

  /** Every completed scale of the function, from any state to any target, leaves the target shape. */
  ghost predicate AlwaysConverges(dep: Deployment, baseNetwork: string) {
    forall h0, h1, target, listing, plan |
      Attempt(h0, h1, dep, baseNetwork, target, listing, plan) && Completed(h0, h1, dep, baseNetwork, plan)
      && target <= MAX_INT ::
      Shape(h1, dep.service, target)
  }

  /** Scaling converges for exactly those requests whose user labels do not hide what the provider reads back. */
  lemma ConvergesIffReadsBack(dep: Deployment, baseNetwork: string)
    requires NetworkOf(dep, baseNetwork) != ""
    ensures AlwaysConverges(dep, baseNetwork) <==> ReadsBack(dep)
  {
    hide IsRunningState, IsStaleState, ReplicaIndex, ReadsBack, Attempt, Completed, Shape, MAX_INT;
    if ReadsBack(dep) {
      forall h0, h1, target, listing, plan |
        Attempt(h0, h1, dep, baseNetwork, target, listing, plan) && Completed(h0, h1, dep, baseNetwork, plan)
        && target <= MAX_INT
        ensures Shape(h1, dep.service, target)
      {
        ScaleConverges(h0, h1, dep, baseNetwork, target, listing, plan);
      }
    } else {
      var h0, h1, plan := MisreadDiverges(dep, baseNetwork);
      assert 2 <= MAX_INT by { SmallTarget(); }
    }
  }

  lemma SmallTarget()
    ensures 0 <= 1 <= 2 <= MAX_INT
  {
  }

  /** Any other request goes wrong on an empty function: nothing obstructs its scale to 2, which completes and misses
      the shape, because both new containers are read back at one index or as another function's. */
  lemma MisreadDiverges(dep: Deployment, baseNetwork: string) returns (h0: Host, h1: Host, plan: Plan)
    requires !ReadsBack(dep) && NetworkOf(dep, baseNetwork) != ""
    ensures h0 == Host(map[], 0) && Unobstructed(h0, dep, baseNetwork, plan)
    ensures Attempt(h0, h1, dep, baseNetwork, 2, [], plan) && Completed(h0, h1, dep, baseNetwork, plan)
    ensures !Shape(h1, dep.service, 2) && Blocked(h1, dep.service, 0)
  {
    hide ContainerName, IsRunningState, IsStaleState, ReplicaIndex, StaleByState, SummaryOf, IsPlan, Decimal, Atoi,
      ContainerLabels, ReadsBack, Shape;
    var c, d := Newborn(dep, baseNetwork, 0), Newborn(dep, baseNetwork, 1);
    h0, h1, plan := Host(map[], 0), Host(map[0 := c, 1 := d], 2), Plan([], [], [0, 1]);
    assert BornFor(h1.containers[0], dep, baseNetwork, 0) && BornFor(h1.containers[1], dep, baseNetwork, 1);
    NamesDiffer(dep.service, 0, 1);
    StaleStates(c, 0);
    FirstPlan();
    MisreadShape(dep, baseNetwork, h1);
  }

  function Newborn(dep: Deployment, baseNetwork: string, i: nat): Container {
    var network := NetworkOf(dep, baseNetwork);
    Container(ContainerName(dep.service, i), dep.image, network, ContainerLabels(dep, network, i), Running, "Up", 0)
  }

  lemma MisreadShape(dep: Deployment, baseNetwork: string, h1: Host)
    requires !ReadsBack(dep)
    requires h1.containers == map[0 := Newborn(dep, baseNetwork, 0), 1 := Newborn(dep, baseNetwork, 1)]
    ensures !Shape(h1, dep.service, 2)
  {
    hide ContainerName, IsRunningState, IsStaleState, Decimal, Atoi, TrimSpace;
    UpIsNotStale();
    if LABEL_FUNCTION in dep.labels && dep.labels[LABEL_FUNCTION] != dep.service {
      assert !Filled(h1, dep.service, 0);
    } else {
      var i := Atoi(TrimSpace(dep.labels[LABEL_REPLICA])).value;
      assert ActiveAt(h1, dep.service, i, 0) && ActiveAt(h1, dep.service, i, 1);
    }
  }

  /** Scaling an empty function to 2 plans indices 0 and 1 and nothing else. */
  lemma FirstPlan()
    ensures IsPlan([], 2, Plan([], [], [0, 1]))
  {
    hide IsRunningState, IsStaleState, ReplicaIndex;
    assert StaleOf([]) == [];
    assert forall i :: Group([], i) == [];
  }
}
