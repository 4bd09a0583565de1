/** Several requests may create containers at the same time, one Docker call after the other in any interleaving.
    Docker's unique names still leave at most one gateway container per function and index. */
module CreationRaces {
  import opened GoText
  import opened Faults
  import opened ReplicaNames
  import opened ReplicaPlan
  import opened DockerDaemon
  import opened DockerProvider
  import opened ScaleLaws

  /** One Docker call by any of the requests in flight, or a container changing state by itself. */
  datatype Step =
    | Create(dep: Deployment, network: string, index: nat, now: int)
    | Start(id: Id)
    | Stop(id: Id)
    | Remove(id: Id)
    | Drift(id: Id, state: State, status: string)

  function Apply(h: Host, step: Step, fault: Fault): Host {
    if fault.Refused? then h
    else match step
      case Create(dep, network, i, now) =>
        AfterCreate(h, ContainerName(dep.service, i), dep.image, network, ContainerLabels(dep, network, i), now)
      case Start(id) => AfterStart(h, id)
      case Stop(id) => AfterStop(h, id)
      case Remove(id) => AfterRemove(h, id)
      case Drift(id, state, status) => Drifted(h, id, state, status)
  }

  function Run(h: Host, steps: seq<(Step, Fault)>): Host {
    if steps == [] then h
    else Apply(Run(h, steps[..|steps| - 1]), steps[|steps| - 1].0, steps[|steps| - 1].1)
  }

  ghost predicate CleanStep(step: Step) {
    step.Create? ==> ReadsBack(step.dep) && step.index <= MAX_INT
  }

  /** Whatever carries a function label was named and labelled by the provider. */
  ghost predicate Tracked(h: Host) {
    forall id | id in h.containers && LABEL_FUNCTION in h.containers[id].labels ::
      exists i: nat :: TrackedAt(h.containers[id], i)
  }

  /** By its name and by what is read back from it, the container is replica `i` of the function it is labelled with. */
  ghost predicate TrackedAt(c: Container, i: nat)
    requires LABEL_FUNCTION in c.labels
  {
    i <= MAX_INT && c.name == ContainerName(c.labels[LABEL_FUNCTION], i)
    && ReplicaIndex(c.labels, ["/" + c.name]) == Some(i)
  }

  lemma CreatedIsTracked(dep: Deployment, network: string, i: nat, c: Container)
    requires ReadsBack(dep) && i <= MAX_INT
    requires c.name == ContainerName(dep.service, i) && c.labels == ContainerLabels(dep, network, i)
    requires c.image == dep.image && c.network == network
    ensures LABEL_FUNCTION in c.labels && TrackedAt(c, i)
  {
    hide ContainerName, MAX_INT, ReplicaIndex, IsStaleState;
    var placed := dep.(network := network);
    assert ReadsBack(placed) && NetworkOf(placed, network) == network;
    assert BornFor(c, placed, network, i);
    BornIsRead(0, c, placed, network, i);
  }

  lemma SameReplicaTracked(c: Container, d: Container, i: nat)
    requires LABEL_FUNCTION in c.labels && TrackedAt(c, i) && d.labels == c.labels && d.name == c.name
    ensures TrackedAt(d, i)
  {
  }

  lemma ApplyTracks(h: Host, step: Step, fault: Fault)
    requires WellFormed(h) && Tracked(h) && CleanStep(step)
    ensures WellFormed(Apply(h, step, fault)) && Tracked(Apply(h, step, fault))
  {
    hide ContainerName, ContainerLabels, MAX_INT, ReplicaIndex, ReadsBack, IsStaleState, TrackedAt;
    var h1 := Apply(h, step, fault);
    forall id | id in h1.containers && LABEL_FUNCTION in h1.containers[id].labels
      ensures exists i: nat :: TrackedAt(h1.containers[id], i)
    {
      if id in h.containers {
        var i: nat :| TrackedAt(h.containers[id], i);
        SameReplicaTracked(h.containers[id], h1.containers[id], i);
      } else {
        CreatedIsTracked(step.dep, step.network, step.index, h1.containers[id]);
      }
    }
  }

  /** No two containers of one function are read back at the same index. */
  ghost predicate AtMostOnePerIndex(h: Host) {
    forall a, b | a in h.containers && b in h.containers && SameReplica(a, h.containers[a], b, h.containers[b]) ::
      a == b
  }

  ghost predicate SameReplica(a: Id, c: Container, b: Id, d: Container) {
    LABEL_FUNCTION in c.labels && LABEL_FUNCTION in d.labels && c.labels[LABEL_FUNCTION] == d.labels[LABEL_FUNCTION]
    && SummaryOf(a, c).Index() == SummaryOf(b, d).Index()
  }

  lemma TrackedIsUnique(h: Host)
    requires WellFormed(h) && Tracked(h)
    ensures AtMostOnePerIndex(h)
  {
    hide ContainerName, MAX_INT, ReplicaIndex, IsRunningState, IsStaleState;
    forall a, b | a in h.containers && b in h.containers && SameReplica(a, h.containers[a], b, h.containers[b])
      ensures a == b
    {
      var i: nat :| TrackedAt(h.containers[a], i);
      var j: nat :| TrackedAt(h.containers[b], j);
    }
  }

  /** After every interleaving of calls, failed or not, each function has at most one container per index. */
  lemma {:induction false} RacesCannotDuplicate(h: Host, steps: seq<(Step, Fault)>)
    requires WellFormed(h) && Tracked(h)
    requires forall k | 0 <= k < |steps| :: CleanStep(steps[k].0)
    ensures WellFormed(Run(h, steps)) && Tracked(Run(h, steps)) && AtMostOnePerIndex(Run(h, steps))
  {
    hide WellFormed, Tracked, AtMostOnePerIndex, Apply;
    if steps != [] {
      var before := steps[..|steps| - 1];
      RacesCannotDuplicate(h, before);
      ApplyTracks(Run(h, before), steps[|steps| - 1].0, steps[|steps| - 1].1);
    }
    TrackedIsUnique(Run(h, steps));
  }
}
