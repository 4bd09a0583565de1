/** The provider: creating, removing and scaling the containers of a function, one fallible Docker call at a time. */
module DockerProvider {
  import opened GoText
  import opened Faults
  import opened ReplicaNames
  import opened ReplicaPlan
  import opened DockerDaemon

  datatype Deployment = Deployment(service: string, image: string, network: string, labels: map<string, string>)

  function NetworkOf(dep: Deployment, baseNetwork: string): string {
    if dep.network == "" then baseNetwork else dep.network
  }

  /** System labels first, user labels over them. */
  function ContainerLabels(dep: Deployment, network: string, index: nat): map<string, string> {
    map[LABEL_FUNCTION := dep.service, LABEL_TYPE := "function",
        LABEL_REPLICA := Decimal(index), LABEL_NETWORK := network] + dep.labels
  }

  /** The container runs the image, on the network, and carries the user labels. */
  ghost predicate Runs(c: Container, image: string, network: string, labels: map<string, string>) {
    c.image == image && c.network == network && forall k | k in labels :: k in c.labels && c.labels[k] == labels[k]
  }

  /** What a replica is created with: the request's network if it names one, else the provider's, and the user labels
      over the provider's own. */
  lemma ReplicaFields(c: Container, dep: Deployment, baseNetwork: string, i: nat)
    requires BornFor(c, dep, baseNetwork, i)
    ensures c.name == dep.service + "-" + Decimal(i)
    ensures Runs(c, dep.image, if dep.network != "" then dep.network else baseNetwork, dep.labels)
    ensures LABEL_FUNCTION !in dep.labels ==> c.labels[LABEL_FUNCTION] == dep.service
    ensures LABEL_REPLICA !in dep.labels ==> c.labels[LABEL_REPLICA] == Decimal(i)
    ensures LABEL_NETWORK !in dep.labels ==> c.labels[LABEL_NETWORK] == c.network
    ensures LABEL_TYPE !in dep.labels ==> c.labels[LABEL_TYPE] == "function"
  {
  }

  /** A container this deployment creates for one of the indices. */
  ghost predicate BornFor(c: Container, dep: Deployment, baseNetwork: string, i: nat) {
    c.name == ContainerName(dep.service, i) && c.image == dep.image && c.network == NetworkOf(dep, baseNetwork)
    && c.labels == ContainerLabels(dep, NetworkOf(dep, baseNetwork), i)
  }

  ghost predicate IsNameOf(name: string, service: string, indices: set<nat>) {
    exists i | i in indices :: name == ContainerName(service, i)
  }

  /** `h1` is `h0` part-way through a change that may remove the containers in `doomed` and create replicas
      at `indices`. Everything else is untouched, except that a stale container holding one of the names may go. */
  ghost predicate Progress(h0: Host, h1: Host, doomed: set<Id>, dep: Deployment, baseNetwork: string,
                           indices: set<nat>) {
    h0.next <= h1.next
    && (forall id | id in h0.containers && id !in h1.containers ::
          id in doomed || (StaleByState(h0.containers[id]) && IsNameOf(h0.containers[id].name, dep.service, indices)))
    && (forall id | id in h0.containers && id in h1.containers ::
          h1.containers[id] == h0.containers[id]
          || (id in doomed && h1.containers[id] == Stopped(h0.containers[id])))
    && (forall id | id in h1.containers && id !in h0.containers ::
          id >= h0.next && exists i | i in indices :: BornFor(h1.containers[id], dep, baseNetwork, i))
  }

  /** A running replica at index `i` that did not exist in `h0`. */
  ghost predicate NewReplica(h0: Host, h1: Host, dep: Deployment, baseNetwork: string, i: nat) {
    exists id | id in h1.containers ::
      id !in h0.containers && BornFor(h1.containers[id], dep, baseNetwork, i)
      && h1.containers[id].state == Running && h1.containers[id].status == "Up"
  }

  /** An index whose name is held by a container that is not stale, so that creating it is refused. */
  ghost predicate Blocked(h: Host, service: string, i: nat) {
    ActiveHolder(h, ContainerName(service, i))
  }

  /** There is a network to create replica `i` on, and its name is free or stale. */
  ghost predicate CanCreate(h: Host, dep: Deployment, baseNetwork: string, i: nat) {
    NetworkOf(dep, baseNetwork) != "" && !Blocked(h, dep.service, i)
  }

  ghost predicate ActiveHolder(h: Host, name: string) {
    exists id | id in h.containers :: h.containers[id].name == name && !StaleByState(h.containers[id])
  }

  /** Only containers named `name` differ. */
  ghost predicate SameElsewhere(h0: Host, h1: Host, name: string) {
    (forall id | id in h0.containers && h0.containers[id].name != name ::
       id in h1.containers && h1.containers[id] == h0.containers[id])
    && (forall id | id in h1.containers && h1.containers[id].name != name ::
          id in h0.containers && h1.containers[id] == h0.containers[id])
  }

  /** Every state the daemon went through from call `from` on was part-way through the same change. */
  ghost predicate History(h0: Host, seen: seq<Host>, from: nat, doomed: set<Id>, dep: Deployment, baseNetwork: string,
                          indices: set<nat>) {
    forall k | from <= k < |seen| :: WellFormed(seen[k]) && Progress(h0, seen[k], doomed, dep, baseNetwork, indices)
  }

  /** Stopping or removing a doomed container, or being refused, is progress. */
  lemma ProgressOnDoomed(h0: Host, h1: Host, id: Id, doomed: set<Id>, dep: Deployment, baseNetwork: string,
                         indices: set<nat>)
    requires WellFormed(h0) && id in doomed
    requires h1 == h0 || h1 == AfterStop(h0, id) || h1 == AfterRemove(h0, id)
             || h1 == AfterRemove(AfterStop(h0, id), id)
    ensures WellFormed(h1) && Progress(h0, h1, doomed, dep, baseNetwork, indices)
  {
  }

  lemma OnlyItRemoved(h0: Host, h1: Host, id: Id)
    requires h1 == h0 || h1 == AfterStop(h0, id) || h1 == AfterRemove(h0, id)
             || h1 == AfterRemove(AfterStop(h0, id), id)
    ensures OnlyRemoves(h0, h1, {id})
  {
  }

  lemma ProgressOnBirth(h0: Host, c: Container, doomed: set<Id>, dep: Deployment, baseNetwork: string, i: nat,
                        indices: set<nat>)
    requires WellFormed(h0) && i in indices && !NameTaken(h0, ContainerName(dep.service, i))
    requires BornFor(c, dep, baseNetwork, i)
    ensures var h1 := Host(h0.containers[h0.next := c], h0.next + 1);
            WellFormed(h1) && Progress(h0, h1, doomed, dep, baseNetwork, indices) && SameElsewhere(h0, h1, c.name)
  {
    hide IsStaleState, ContainerName, ContainerLabels, StaleByState, IsNameOf;
  }

  /** Creating a replica under a free name, and starting it, is progress towards it. */
  lemma ProgressOnCreate(h0: Host, doomed: set<Id>, dep: Deployment, baseNetwork: string, i: nat, indices: set<nat>,
                         now: int)
    requires WellFormed(h0) && i in indices && !NameTaken(h0, ContainerName(dep.service, i))
    ensures var name := ContainerName(dep.service, i);
            var network := NetworkOf(dep, baseNetwork);
            var h1 := AfterCreate(h0, name, dep.image, network, ContainerLabels(dep, network, i), now);
            var h2 := AfterStart(h1, h0.next);
            WellFormed(h1) && Progress(h0, h1, doomed, dep, baseNetwork, indices) && SameElsewhere(h0, h1, name)
            && WellFormed(h2) && Progress(h0, h2, doomed, dep, baseNetwork, indices) && SameElsewhere(h0, h2, name)
            && h0.next in h1.containers && NewReplica(h0, h2, dep, baseNetwork, i)
            && Progress(h0, h0, doomed, dep, baseNetwork, indices) && SameElsewhere(h0, h0, name)
  {
    hide IsStaleState, ContainerName, ContainerLabels, StaleByState, IsNameOf, Progress, SameElsewhere;
    var name := ContainerName(dep.service, i);
    var network := NetworkOf(dep, baseNetwork);
    var c := Container(name, dep.image, network, ContainerLabels(dep, network, i), Created, "Created", now);
    var h1 := Host(h0.containers[h0.next := c], h0.next + 1);
    assert h1 == AfterCreate(h0, name, dep.image, network, c.labels, now);
    var h2 := Host(h0.containers[h0.next := Started(c)], h0.next + 1);
    assert h2.containers == AfterStart(h1, h0.next).containers;
    ProgressOnBirth(h0, c, doomed, dep, baseNetwork, i, indices);
    ProgressOnBirth(h0, Started(c), doomed, dep, baseNetwork, i, indices);
    NoProgress(h0, [], doomed, dep, baseNetwork, indices);
    assert BornFor(h2.containers[h0.next], dep, baseNetwork, i);
    assert SameElsewhere(h0, h0, name) by { SameAsItself(h0, name); }
  }

  lemma SameAsItself(h: Host, name: string)
    ensures SameElsewhere(h, h, name)
  {
  }

  lemma NoProgress(h: Host, seen: seq<Host>, doomed: set<Id>, dep: Deployment, baseNetwork: string, indices: set<nat>)
    ensures Progress(h, h, doomed, dep, baseNetwork, indices)
    ensures History(h, seen, |seen|, doomed, dep, baseNetwork, indices)
  {
  }

  lemma GoneStaysGone(h0: Host, h1: Host, doomed: set<Id>, dep: Deployment, baseNetwork: string, indices: set<nat>)
    requires Progress(h0, h1, doomed, dep, baseNetwork, indices)
    ensures h0.next <= h1.next
    ensures forall id | id < h0.next && id !in h0.containers :: id !in h1.containers
  {
  }

  lemma ProgressChains(h0: Host, h1: Host, h2: Host, doomed: set<Id>, dep: Deployment, baseNetwork: string,
                       indices: set<nat>)
    requires WellFormed(h0) && forall id | id in doomed :: id < h0.next
    requires Progress(h0, h1, doomed, dep, baseNetwork, indices)
    requires Progress(h1, h2, doomed, dep, baseNetwork, indices)
    ensures Progress(h0, h2, doomed, dep, baseNetwork, indices)
  {
    hide IsStaleState, ContainerName, ContainerLabels, IsNameOf;
  }

  lemma HistoryChains(h0: Host, h1: Host, seen1: seq<Host>, seen2: seq<Host>, from: nat, doomed: set<Id>,
                      dep: Deployment, baseNetwork: string, indices: set<nat>)
    requires WellFormed(h0) && forall id | id in doomed :: id < h0.next
    requires Progress(h0, h1, doomed, dep, baseNetwork, indices) && seen1 <= seen2
    requires History(h0, seen1, from, doomed, dep, baseNetwork, indices)
    requires History(h1, seen2, |seen1|, doomed, dep, baseNetwork, indices)
    ensures History(h0, seen2, from, doomed, dep, baseNetwork, indices)
  {
    hide Progress, WellFormed;
    forall k | from <= k < |seen2|
      ensures WellFormed(seen2[k]) && Progress(h0, seen2[k], doomed, dep, baseNetwork, indices)
    {
      if k < |seen1| {
        assert seen2[k] == seen1[k];
      } else {
        ProgressChains(h0, h1, seen2[k], doomed, dep, baseNetwork, indices);
      }
    }
  }

  /** The containers a plan removes and the indices it creates. */
  ghost function Doomed(plan: Plan): set<Id> {
    set s | s in plan.stale + plan.active :: s.id
  }

  ghost function Indices(plan: Plan): set<nat> {
    set i | i in plan.missing
  }

  /** Every removal and every creation of the plan has happened. */
  ghost predicate Completed(h0: Host, h1: Host, dep: Deployment, baseNetwork: string, plan: Plan) {
    (forall id | id in Doomed(plan) :: id !in h1.containers)
    && (forall i | i in plan.missing :: NewReplica(h0, h1, dep, baseNetwork, i))
  }

  /** With the doomed containers gone, no missing index is blocked, and there is a network to create it on. */
  ghost predicate Unobstructed(h: Host, dep: Deployment, baseNetwork: string, plan: Plan) {
    var rest := h.(containers := h.containers - Doomed(plan));
    forall i | i in plan.missing :: CanCreate(rest, dep, baseNetwork, i)
  }

  /** Creating one index neither disturbs the replicas created before it nor changes who blocks the others. */
  lemma CreationsDoNotInterfere(h0: Host, h1: Host, h2: Host, dep: Deployment, baseNetwork: string, list: seq<nat>,
                                n: nat)
    requires WellFormed(h0) && h0.next <= h1.next && Ascending(list) && n < |list|
    requires SameElsewhere(h1, h2, ContainerName(dep.service, list[n]))
    requires NewReplica(h1, h2, dep, baseNetwork, list[n])
    requires forall id | id < h1.next && id !in h1.containers :: id !in h2.containers
    requires forall i | i in list[..n] :: NewReplica(h0, h1, dep, baseNetwork, i)
    ensures forall i | i in list[..n] + [list[n]] :: NewReplica(h0, h2, dep, baseNetwork, i)
    ensures forall i | i in list[n + 1..] :: CanCreate(h2, dep, baseNetwork, i) <==> CanCreate(h1, dep, baseNetwork, i)
  {
    hide IsStaleState, ContainerName, ContainerLabels, StaleByState;
    forall i | i in list[..n] + [list[n]]
      ensures NewReplica(h0, h2, dep, baseNetwork, i)
    {
      if i == list[n] {
      } else {
        NamesDiffer(dep.service, i, list[n]);
      }
    }
    forall i | i in list[n + 1..]
      ensures CanCreate(h2, dep, baseNetwork, i) <==> CanCreate(h1, dep, baseNetwork, i)
    {
      NamesDiffer(dep.service, i, list[n]);
    }
  }

  lemma NamesDiffer(service: string, i: nat, j: nat)
    requires i != j
    ensures ContainerName(service, i) != ContainerName(service, j)
  {
    if ContainerName(service, i) == ContainerName(service, j) {
      NamesInjective(service, i, service, j);
    }
  }

  lemma PlannedIdsExist(h: Host, service: string, listing: seq<Summary>, target: int, plan: Plan)
    requires WellFormed(h) && Lists(h, service, listing) && IsPlan(listing, target, plan)
    ensures forall s | s in plan.stale + plan.active :: s in listing
    ensures forall id | id in Doomed(plan) :: id in h.containers && id < h.next
    ensures Ascending(plan.missing)
  {
    hide IsRunningState, IsStaleState, ReplicaIndex, Filter, Keeper;
    forall s | s in plan.stale + plan.active
      ensures s in listing
    {
      FilterCount(listing, (c: Summary) => c.Stale(), s);
      if s in plan.stale {
        assert s in multiset(plan.stale);
      } else {
        assert s in multiset(plan.active);
        assert RemovalCount(listing, target, s) > 0;
        if s.Index().Some? {
          GroupCount(listing, s.Index().value, s);
        }
      }
      assert s in multiset(listing);
    }
  }

  /** Nothing outside `doomed` has changed, nothing is new, and what is left of `doomed` is at most stopped. */
  ghost predicate OnlyRemoves(h0: Host, h1: Host, doomed: set<Id>) {
    h1.next == h0.next
    && (forall id | id in h0.containers && id !in doomed ::
          id in h1.containers && h1.containers[id] == h0.containers[id])
    && (forall id | id in h1.containers ::
          id in h0.containers
          && (h1.containers[id] == h0.containers[id] || h1.containers[id] == Stopped(h0.containers[id])))
  }

  /** After both removal loops exactly the doomed containers are gone. */
  lemma RemovalsLeave(h0: Host, h1: Host, h2: Host, plan: Plan)
    requires OnlyRemoves(h0, h1, Doomed(plan)) && OnlyRemoves(h1, h2, Doomed(plan))
    requires forall s | s in plan.stale :: s.id !in h1.containers
    requires forall s | s in plan.active :: s.id !in h2.containers
    ensures h2 == h0.(containers := h0.containers - Doomed(plan))
  {
    forall s | s in plan.stale + plan.active
      ensures s.id !in h2.containers
    {
    }
  }

  lemma CreationsCount(h0: Host, h1: Host, h2: Host, dep: Deployment, baseNetwork: string, plan: Plan)
    requires WellFormed(h0) && h1 == h0.(containers := h0.containers - Doomed(plan))
    requires forall id | id in Doomed(plan) :: id < h0.next
    requires forall id | id < h1.next && id !in h1.containers :: id !in h2.containers
    ensures (forall i | i in plan.missing :: NewReplica(h1, h2, dep, baseNetwork, i))
            ==> Completed(h0, h2, dep, baseNetwork, plan)
  {
    hide IsStaleState, ContainerName, ContainerLabels, StaleByState;
  }

  lemma FirstCallHistory(h: Host, seen: seq<Host>, doomed: set<Id>, dep: Deployment, baseNetwork: string,
                         indices: set<nat>)
    requires WellFormed(h)
    ensures History(h, seen + [h], |seen|, doomed, dep, baseNetwork, indices)
  {
  }

  ghost function Members(h: Host, service: string): set<Id> {
    set id | id in h.containers && BelongsTo(h.containers[id], service)
  }

  ghost function Without(h: Host, service: string): Host {
    h.(containers := h.containers - Members(h, service))
  }

  lemma MembersGone(h0: Host, h1: Host, service: string, listing: seq<Summary>)
    requires Lists(h0, service, listing) && OnlyRemoves(h0, h1, Members(h0, service))
    requires forall s | s in listing :: s.id !in h1.containers
    ensures h1 == Without(h0, service)
  {
    hide SummaryOf;
    forall id | id in Members(h0, service)
      ensures id !in h1.containers
    {
      var s := SummaryOf(id, h0.containers[id]);
      assert s in listing;
      assert s.id == id by { SummaryKeepsId(id, h0.containers[id]); }
    }
  }

  lemma RemovesNothing(h: Host, doomed: set<Id>)
    ensures OnlyRemoves(h, h, doomed)
  {
  }

  lemma ListedIsMember(h: Host, service: string, listing: seq<Summary>, n: nat)
    requires Lists(h, service, listing) && n < |listing|
    ensures listing[n].id in Members(h, service)
  {
    hide SummaryOf;
  }

  lemma RemovesChain(h0: Host, h1: Host, h2: Host, id: Id, doomed: set<Id>)
    requires OnlyRemoves(h0, h1, doomed) && OnlyRemoves(h1, h2, {id}) && id in doomed
    ensures OnlyRemoves(h0, h2, doomed)
    ensures forall k | k in h2.containers :: k in h1.containers
  {
  }

  lemma SummaryKeepsId(id: Id, c: Container)
    ensures SummaryOf(id, c).id == id
  {
  }

  /** The listing in order without the lines whose inspection fails: line k is inspected by call `from + k`. */
  function Inspected(schedule: nat -> Fault, listing: seq<Summary>, from: nat): seq<Summary> {
    if listing == [] then []
    else
      var last := |listing| - 1;
      Inspected(schedule, listing[..last], from) + if schedule(from + last).Answered? then [listing[last]] else []
  }

  lemma InspectedNext(schedule: nat -> Fault, listing: seq<Summary>, from: nat, n: nat)
    requires n < |listing|
    ensures Inspected(schedule, listing[..n + 1], from) ==
            Inspected(schedule, listing[..n], from) + if schedule(from + n).Answered? then [listing[n]] else []
  {
    assert listing[..n + 1][..n] == listing[..n];
  }

  lemma {:induction false} InspectedAll(schedule: nat -> Fault, listing: seq<Summary>, from: nat)
    requires forall k | from <= k < from + |listing| :: schedule(k).Answered?
    ensures Inspected(schedule, listing, from) == listing
  {
    if listing != [] {
      InspectedAll(schedule, listing[..|listing| - 1], from);
    }
  }

  /** 0, 1, ..., n - 1. */
  function FirstIndices(n: nat): (r: seq<nat>)
    ensures |r| == n && forall k | 0 <= k < n :: r[k] == k
    ensures Ascending(r) && forall i: nat :: i in r <==> i < n
  {
    if n == 0 then [] else FirstIndices(n - 1) + [n - 1]
  }

  class Provider {
    const daemon: Daemon
    const network: string

    constructor (daemon: Daemon, network: string)
      ensures this.daemon == daemon && this.network == network
    {
      this.daemon, this.network := daemon, network;
    }

    ghost predicate Valid()
      reads daemon
    {
      daemon.Valid()
    }

    /** What every method promises: each state since `old` is part-way through one and the same change. */
    twostate predicate Within(doomed: set<Id>, dep: Deployment, indices: set<nat>)
      reads daemon
    {
      Valid() && old(daemon.calls) <= daemon.calls && old(daemon.seen) <= daemon.seen
      && Progress(old(daemon.host), daemon.host, doomed, dep, network, indices)
      && History(old(daemon.host), daemon.seen, |old(daemon.seen)|, doomed, dep, network, indices)
    }

    method RemoveContainerSummary(s: Summary, ghost doomed: set<Id>, ghost dep: Deployment, ghost indices: set<nat>)
      returns (ok: bool)
      requires Valid() && s.id in doomed
      modifies daemon
      ensures Within(doomed, dep, indices)
      ensures OnlyRemoves(old(daemon.host), daemon.host, {s.id})
      ensures ok ==> s.id !in daemon.host.containers
      ensures daemon.NoFaults(old(daemon.calls)) ==> ok
    {
      hide Progress, WellFormed, IsRunningState, OnlyRemoves;
      ghost var h0 := daemon.host;
      if s.Running() {
        var stopped := daemon.ContainerStop(s.id);
        ProgressOnDoomed(h0, daemon.host, s.id, doomed, dep, network, indices);
        OnlyItRemoved(h0, daemon.host, s.id);
        if stopped.Failed? {
          return false;
        }
      }
      var removed := daemon.ContainerRemove(s.id);
      ProgressOnDoomed(h0, daemon.host, s.id, doomed, dep, network, indices);
      OnlyItRemoved(h0, daemon.host, s.id);
      ok := !removed.Failed?;
    }

    method RemoveAll(list: seq<Summary>, ghost doomed: set<Id>, ghost dep: Deployment, ghost indices: set<nat>)
      returns (ok: bool)
      requires Valid() && forall s | s in list :: s.id in doomed
      requires forall id | id in doomed :: id < daemon.host.next
      modifies daemon
      ensures Within(doomed, dep, indices)
      ensures OnlyRemoves(old(daemon.host), daemon.host, doomed)
      ensures ok ==> forall s | s in list :: s.id !in daemon.host.containers
      ensures daemon.NoFaults(old(daemon.calls)) ==> ok
    {
      hide Progress, WellFormed, History;
      NoProgress(daemon.host, daemon.seen, doomed, dep, network, indices);
      for n := 0 to |list|
        invariant Within(doomed, dep, indices) && OnlyRemoves(old(daemon.host), daemon.host, doomed)
        invariant forall s | s in list[..n] :: s.id !in daemon.host.containers
      {
        ghost var h1, seen1 := daemon.host, daemon.seen;
        ok := RemoveContainerSummary(list[n], doomed, dep, indices);
        RemovesChain(old(daemon.host), h1, daemon.host, list[n].id, doomed);
        ProgressChains(old(daemon.host), h1, daemon.host, doomed, dep, network, indices);
        HistoryChains(old(daemon.host), h1, seen1, daemon.seen, |old(daemon.seen)|, doomed, dep, network, indices);
        if !ok {
          return;
        }
        GoneStaysGone(h1, daemon.host, doomed, dep, network, indices);
        assert list[..n + 1] == list[..n] + [list[n]];
      }
      ok := true;
    }

    /** Frees `name` if a stale container holds it; an active holder is an error. */
    method RemoveStaleContainerByName(name: string, ghost doomed: set<Id>, ghost dep: Deployment,
                                      ghost indices: set<nat>)
      returns (ok: bool)
      requires Valid() && IsNameOf(name, dep.service, indices)
      modifies daemon
      ensures Within(doomed, dep, indices) && daemon.host.next == old(daemon.host.next)
      ensures SameElsewhere(old(daemon.host), daemon.host, name)
      ensures ok ==> !NameTaken(daemon.host, name)
      ensures daemon.NoFaults(old(daemon.calls)) ==> (ok <==> !ActiveHolder(old(daemon.host), name))
    {
      hide StaleByState, ContainerName, ContainerLabels, IsNameOf;
      var found := daemon.ContainerInspect(name);
      match found {
        case NotFound => return true;
        case Failed => return false;
        case Done(holder) =>
          if !StaleByState(holder.1) {
            return false;
          }
          var removed := daemon.ContainerRemove(holder.0);
          ok := !removed.Failed?;
      }
    }

    /** Creates and starts replica `i`. */
    method CreateContainer(dep: Deployment, i: nat, ghost doomed: set<Id>, ghost indices: set<nat>) returns (ok: bool)
      requires Valid() && i in indices && forall id | id in doomed :: id < daemon.host.next
      modifies daemon
      ensures Within(doomed, dep, indices)
      ensures SameElsewhere(old(daemon.host), daemon.host, ContainerName(dep.service, i))
      ensures ok ==> NewReplica(old(daemon.host), daemon.host, dep, network, i)
      ensures daemon.NoFaults(old(daemon.calls)) ==>
                (ok <==> CanCreate(old(daemon.host), dep, network, i))
    {
      var name := ContainerName(dep.service, i);
      var networkName := NetworkOf(dep, network);
      NoProgress(daemon.host, daemon.seen, doomed, dep, network, indices);
      if networkName == "" {
        return false;
      }
      ok := daemon.OtherCall();
      if !ok {
        return;
      }
      ghost var h1, seen1 := daemon.host, daemon.seen;
      ok := RemoveStaleContainerByName(name, doomed, dep, indices);
      HistoryChains(old(daemon.host), h1, seen1, daemon.seen, |old(daemon.seen)|, doomed, dep, network, indices);
      if !ok {
        return;
      }
      ghost var h2, seen2 := daemon.host, daemon.seen;
      ok := CreateAndStart(dep, networkName, i, doomed, indices);
      ProgressChains(h1, h2, daemon.host, doomed, dep, network, indices);
      HistoryChains(old(daemon.host), h2, seen2, daemon.seen, |old(daemon.seen)|, doomed, dep, network, indices);
    }

    method CreateAndStart(dep: Deployment, networkName: string, i: nat, ghost doomed: set<Id>, ghost indices: set<nat>)
      returns (ok: bool)
      requires Valid() && i in indices && networkName == NetworkOf(dep, network)
      requires !NameTaken(daemon.host, ContainerName(dep.service, i))
      modifies daemon
      ensures Within(doomed, dep, indices)
      ensures SameElsewhere(old(daemon.host), daemon.host, ContainerName(dep.service, i))
      ensures ok ==> NewReplica(old(daemon.host), daemon.host, dep, network, i)
      ensures daemon.NoFaults(old(daemon.calls)) ==> ok
    {
      hide Progress, WellFormed, NameTaken, SameElsewhere, NewReplica, AfterCreate, AfterStart, ContainerName;
      ghost var h0, now := daemon.host, daemon.clock(daemon.calls);
      ProgressOnCreate(h0, doomed, dep, network, i, indices, now);
      var name := ContainerName(dep.service, i);
      var created := daemon.ContainerCreate(name, dep.image, networkName, ContainerLabels(dep, networkName, i));
      if !created.Done? {
        return false;
      }
      var started := daemon.ContainerStart(created.value);
      ok := started.Done?;
    }

    /** The creation loop of deploy and scale. */
    method CreateAll(dep: Deployment, list: seq<nat>, ghost doomed: set<Id>, ghost indices: set<nat>) returns (ok: bool)
      requires Valid() && Ascending(list) && forall i | i in list :: i in indices
      requires forall id | id in doomed :: id < daemon.host.next
      modifies daemon
      ensures Within(doomed, dep, indices)
      ensures ok ==> forall i | i in list :: NewReplica(old(daemon.host), daemon.host, dep, network, i)
      ensures daemon.NoFaults(old(daemon.calls)) ==>
                (ok <==> forall i | i in list :: CanCreate(old(daemon.host), dep, network, i))
    {
      hide Progress, WellFormed, History, SameElsewhere, NewReplica, CanCreate;
      ghost var h0 := daemon.host;
      NoProgress(h0, daemon.seen, doomed, dep, network, indices);
      for n := 0 to |list|
        invariant Within(doomed, dep, indices) && h0.next <= daemon.host.next
        invariant forall i | i in list[..n] :: NewReplica(h0, daemon.host, dep, network, i)
        invariant forall i | i in list[n..] ::
            CanCreate(daemon.host, dep, network, i) <==> CanCreate(h0, dep, network, i)
        invariant daemon.NoFaults(old(daemon.calls)) ==>
            forall i | i in list[..n] :: CanCreate(h0, dep, network, i)
      {
        ghost var h1, seen1 := daemon.host, daemon.seen;
        assert list[n] in list[n..];
        ok := CreateContainer(dep, list[n], doomed, indices);
        ProgressChains(h0, h1, daemon.host, doomed, dep, network, indices);
        HistoryChains(h0, h1, seen1, daemon.seen, |old(daemon.seen)|, doomed, dep, network, indices);
        if !ok {
          return;
        }
        GoneStaysGone(h1, daemon.host, doomed, dep, network, indices);
        CreationsDoNotInterfere(h0, h1, daemon.host, dep, network, list, n);
        assert list[..n + 1] == list[..n] + [list[n]];
      }
      ok := true;
    }

    /** The reconciler. `planned` says whether the listing succeeded; `listing` and `plan` are what it worked from. */
    method ScaleFunction(dep: Deployment, target: int)
      returns (ok: bool, ghost planned: bool, ghost listing: seq<Summary>, ghost plan: Plan)
      requires Valid()
      modifies daemon
      ensures Valid() && old(daemon.calls) <= daemon.calls
      ensures !planned ==> !ok && daemon.host == old(daemon.host) && daemon.seen == old(daemon.seen) + [daemon.host]
      ensures planned ==> Lists(old(daemon.host), dep.service, listing) && IsPlan(listing, target, plan)
                          && Within(Doomed(plan), dep, Indices(plan))
      ensures ok ==> planned && Completed(old(daemon.host), daemon.host, dep, network, plan)
      ensures daemon.NoFaults(old(daemon.calls)) ==>
                planned && (ok <==> Unobstructed(old(daemon.host), dep, network, plan))
    {
      hide Progress, WellFormed, History, NewReplica, CanCreate, IsPlan, OnlyRemoves, Lists;
      listing, plan := [], Plan([], [], []);
      var reply := daemon.ContainerList(dep.service);
      planned := reply.Done?;
      if !reply.Done? {
        return false, planned, listing, plan;
      }
      listing := reply.value;
      var todo := BuildReplicaScalePlan(reply.value, target);
      plan := todo;
      ghost var h0, seen0 := daemon.host, daemon.seen;
      ghost var doomed, indices := Doomed(plan), Indices(plan);
      PlannedIdsExist(h0, dep.service, listing, target, plan);
      NoProgress(h0, old(daemon.seen), doomed, dep, network, indices);
      FirstCallHistory(h0, old(daemon.seen), doomed, dep, network, indices);
      ok := RemoveAll(todo.stale, doomed, dep, indices);
      HistoryChains(h0, h0, seen0, daemon.seen, |old(daemon.seen)|, doomed, dep, network, indices);
      if !ok {
        return;
      }
      ghost var h1, seen1 := daemon.host, daemon.seen;
      GoneStaysGone(h0, h1, doomed, dep, network, indices);
      ok := RemoveAll(todo.active, doomed, dep, indices);
      ProgressChains(h0, h1, daemon.host, doomed, dep, network, indices);
      HistoryChains(h0, h1, seen1, daemon.seen, |old(daemon.seen)|, doomed, dep, network, indices);
      if !ok {
        return;
      }
      ghost var h2, seen2 := daemon.host, daemon.seen;
      GoneStaysGone(h1, h2, doomed, dep, network, indices);
      RemovalsLeave(h0, h1, h2, plan);
      ok := CreateAll(dep, todo.missing, doomed, indices);
      ProgressChains(h0, h2, daemon.host, doomed, dep, network, indices);
      HistoryChains(h0, h2, seen2, daemon.seen, |old(daemon.seen)|, doomed, dep, network, indices);
      GoneStaysGone(h2, daemon.host, doomed, dep, network, indices);
      CreationsCount(h0, h2, daemon.host, dep, network, plan);
    }

    method StopAndRemove(id: Id)
      requires Valid()
      modifies daemon
      ensures Valid() && old(daemon.calls) <= daemon.calls
      ensures OnlyRemoves(old(daemon.host), daemon.host, {id})
      ensures daemon.NoFaults(old(daemon.calls)) ==> id !in daemon.host.containers
    {
      var _ := daemon.ContainerStop(id);
      var _ := daemon.ContainerRemove(id);
      assert daemon.NoFaults(old(daemon.calls)) ==> daemon.schedule(daemon.calls - 1).Answered?;
    }

    /** Removes whatever the function has. Failing to stop or remove one container is only logged. */
    method RemoveFunction(service: string) returns (ok: bool)
      requires Valid()
      modifies daemon
      ensures Valid() && old(daemon.calls) <= daemon.calls
      ensures OnlyRemoves(old(daemon.host), daemon.host, Members(old(daemon.host), service))
      ensures !ok ==> daemon.host == old(daemon.host)
      ensures daemon.NoFaults(old(daemon.calls)) ==> ok && daemon.host == Without(old(daemon.host), service)
    {
      hide OnlyRemoves, Lists, WellFormed, Without;
      ghost var h0 := daemon.host;
      RemovesNothing(h0, Members(h0, service));
      var reply := daemon.ContainerList(service);
      if !reply.Done? {
        return false;
      }
      var listing := reply.value;
      for n := 0 to |listing|
        invariant Valid() && old(daemon.calls) <= daemon.calls
        invariant OnlyRemoves(h0, daemon.host, Members(h0, service))
        invariant daemon.NoFaults(old(daemon.calls)) ==> forall s | s in listing[..n] :: s.id !in daemon.host.containers
      {
        ghost var h1 := daemon.host;
        ListedIsMember(h0, service, listing, n);
        StopAndRemove(listing[n].id);
        RemovesChain(h0, h1, daemon.host, listing[n].id, Members(h0, service));
        assert listing[..n + 1] == listing[..n] + [listing[n]];
      }
      ok := true;
      assert listing[..|listing|] == listing;
      if daemon.NoFaults(old(daemon.calls)) {
        MembersGone(h0, daemon.host, service, listing);
      }
    }

    method DeployFunction(dep: Deployment, replicas: nat) returns (ok: bool)
      requires Valid()
      modifies daemon
      ensures Within({}, dep, Indices(Plan([], [], FirstIndices(replicas))))
      ensures ok ==> forall i: nat | i < replicas :: NewReplica(old(daemon.host), daemon.host, dep, network, i)
      ensures daemon.NoFaults(old(daemon.calls)) ==>
                (ok <==> forall i: nat | i < replicas :: CanCreate(old(daemon.host), dep, network, i))
    {
      hide Progress, WellFormed, History, NewReplica, CanCreate;
      ghost var h0, seen0, indices := daemon.host, daemon.seen, Indices(Plan([], [], FirstIndices(replicas)));
      NoProgress(h0, seen0, {}, dep, network, indices);
      ok := daemon.OtherCall();
      FirstCallHistory(h0, seen0, {}, dep, network, indices);
      if !ok {
        return;
      }
      ghost var seen1 := daemon.seen;
      ok := CreateAll(dep, FirstIndices(replicas), {}, indices);
      HistoryChains(h0, h0, seen1, daemon.seen, |seen0|, {}, dep, network, indices);
    }

    /** Removes the old containers, carries on even if that failed, and deploys anew. */
    method UpdateFunction(dep: Deployment, replicas: nat) returns (ok: bool, ghost cleared: Host)
      requires Valid()
      modifies daemon
      ensures Valid() && old(daemon.calls) <= daemon.calls && WellFormed(cleared)
      ensures OnlyRemoves(old(daemon.host), cleared, Members(old(daemon.host), dep.service))
      ensures Progress(cleared, daemon.host, {}, dep, network, Indices(Plan([], [], FirstIndices(replicas))))
      ensures ok ==> forall i: nat | i < replicas :: NewReplica(cleared, daemon.host, dep, network, i)
      ensures daemon.NoFaults(old(daemon.calls)) ==>
                cleared == Without(old(daemon.host), dep.service)
                && (ok <==> forall i: nat | i < replicas :: CanCreate(cleared, dep, network, i))
    {
      hide Progress, WellFormed, History, NewReplica, CanCreate, OnlyRemoves;
      var _ := RemoveFunction(dep.service);
      cleared := daemon.host;
      ok := DeployFunction(dep, replicas);
    }

    /** The listing, each line inspected by id. */
    method GetFunctionContainers(service: string) returns (reply: Reply<seq<Summary>>, ghost listing: seq<Summary>)
      requires Valid()
      modifies daemon
      ensures Valid() && old(daemon.calls) <= daemon.calls && daemon.host == old(daemon.host)
      ensures reply.Done? ==>
                Lists(daemon.host, service, listing)
                && reply.value == Inspected(daemon.schedule, listing, old(daemon.calls) + 1)
      ensures daemon.NoFaults(old(daemon.calls)) ==> reply == Done(listing)
    {
      hide Lists, WellFormed, Inspected;
      listing := [];
      var all := daemon.ContainerList(service);
      if !all.Done? {
        return Failed, listing;
      }
      listing := all.value;
      ghost var from := old(daemon.calls) + 1;
      var found: seq<Summary> := [];
      assert Inspected(daemon.schedule, [], from) == [] by {
        InspectedAll(daemon.schedule, [], from);
      }
      for n := 0 to |all.value|
        invariant Valid() && daemon.calls == from + n && daemon.host == old(daemon.host)
        invariant found == Inspected(daemon.schedule, listing[..n], from)
      {
        InspectedNext(daemon.schedule, listing, from, n);
        var ok := daemon.OtherCall();
        if ok {
          found := found + [all.value[n]];
        }
      }
      assert listing[..|listing|] == listing;
      if daemon.NoFaults(old(daemon.calls)) {
        InspectedAll(daemon.schedule, listing, from);
      }
      reply := Done(found);
    }
  }
}
