/** Whole runs of the gateway: any sequence of requests, with any store or Docker call failing, and with replicas
    exiting or being removed by hand in between. */
module GatewayRuns {
  import opened GoText
  import opened ReplicaNames
  import opened DockerDaemon
  import opened DockerProvider
  import opened ReplicaPlan
  import opened ScaleLaws
  import opened CreationRaces
  import opened GatewayState
  import opened Gateway

  datatype Event =
    | Deploy(dep: Deployment)
    | Update(dep: Deployment)
    | Delete(name: string)
    | Scale(name: string, replicas: GoInt)
    | Invoke(name: string, ready: bool)
    | BuildDeploy(dep: Deployment)
    | Drift(id: Id, state: State, status: string)
    | Vanish(id: Id)

  /** The function a request is about. */
  function Subject(e: Event): Option<string> {
    match e
    case Deploy(dep) => Some(dep.service)
    case Update(dep) => Some(dep.service)
    case BuildDeploy(dep) => Some(dep.service)
    case Delete(name) => Some(NormalizeFunctionName(name))
    case Scale(name, _) => Some(NormalizeFunctionName(name))
    case Invoke(name, _) => Some(NormalizeFunctionName(name))
    case _ => None
  }

  /** User labels do not hide what is read back, and a build names a valid function (its handler checks that). */
  predicate Legal(e: Event) {
    match e
    case Deploy(dep) => ReadsBack(dep)
    case Update(dep) => ReadsBack(dep)
    case BuildDeploy(dep) => ReadsBack(dep) && ValidServiceName(dep.service)
    case _ => true
  }

  /** The two records. */
  datatype World = World(rows: Rows, host: Host)

  /** An event as it went: its answer, and whether none of its calls failed. */
  datatype Step = Step(event: Event, code: int, smooth: bool)

  ghost predicate SoundAt(w: World) {
    Sound(w.rows, w.host)
  }

  ghost predicate ConsistentAt(w: World, f: string) {
    Consistent(w.rows, w.host, f)
  }

  /** The answers that leave the function consistent whatever state it was in: an accepted scale, whatever failed on
      the way; an accepted update, delete or build-deploy of a stored function, and an invocation that woke one, if
      nothing failed; and an accepted deploy of a function all of whose leftovers, if any, held its first name. */
  ghost predicate Mends(w0: World, s: Step, f: string) {
    s.code == ACCEPTED
    && match s.event
       case Scale(_, _) => true
       case Update(_) => s.smooth
       case Delete(_) => s.smooth
       case Deploy(_) => Placed(w0.host, f, 1)
       case BuildDeploy(_) => if f in w0.rows then s.smooth else Placed(w0.host, f, 1)
       case Invoke(_, _) => s.smooth && f in w0.rows && !AnyAvailable(w0.host, f)
       case _ => false
  }

  /** The steps that keep a consistent function consistent. Among those in which a call failed these are all updates,
      all accepted deploys and scales, all deletes that were not accepted, and, while the stored count covers the
      replicas asked for (one for a deploy or an invocation), any deploy, scale or invocation that stopped half-way. */
  predicate Keeps(w0: World, s: Step, f: string) {
    s.smooth
    || match s.event
       case Update(_) => true
       case Delete(_) => s.code != ACCEPTED
       case Scale(_, n) => s.code == ACCEPTED || WithinCount(w0.rows, f, n)
       case Invoke(_, _) => WithinCount(w0.rows, f, 1)
       case Deploy(_) => s.code == ACCEPTED || CountCovers(w0.rows, f, 1)
       case BuildDeploy(_) => s.code == ACCEPTED || CountCovers(w0.rows, f, 1)
       case _ => true
  }

  /** An accepted deploy of a function that was not stored. */
  predicate IsFirstDeploy(w0: World, s: Step, f: string) {
    s.code == ACCEPTED && (s.event.Deploy? || (s.event.BuildDeploy? && f !in w0.rows))
  }

  /** What one event may do to the records. */
  ghost predicate StepOk(w0: World, s: Step, w1: World) {
    SoundAt(w0) ==>
      SoundAt(w1)
      && (forall f | Subject(s.event) != Some(f) && ConsistentAt(w0, f) :: ConsistentAt(w1, f))
      && (forall f | Subject(s.event) == Some(f) ::
            OthersSame(w0.host, w1.host, f) && w1.rows - {f} == w0.rows - {f} && OwnStep(w0, s, w1, f))
      && (Subject(s.event) == None ==> w1.rows == w0.rows)
  }

  /** What a request may do to its own function. */
  ghost predicate OwnStep(w0: World, s: Step, w1: World, f: string) {
    (Mends(w0, s, f) || (Keeps(w0, s, f) && ConsistentAt(w0, f)) ==> ConsistentAt(w1, f))
    && (IsFirstDeploy(w0, s, f) ==> (ConsistentAt(w1, f) <==> Placed(w0.host, f, 1)))
  }

  lemma DriftKeeps(rows: Rows, h: Host, id: Id, state: State, status: string)
    requires Sound(rows, h)
    ensures Sound(rows, Drifted(h, id, state, status))
    ensures forall f | Consistent(rows, h, f) :: Consistent(rows, Drifted(h, id, state, status), f)
  {
    hide ContainerName, ValidServiceName, RowOk, Foreign, Tracked, TrackedAt;
    var h1 := Drifted(h, id, state, status);
    SoundAfter(rows, h, h1);
    PartStaysConsistent(rows, h, h1);
  }

  lemma VanishKeeps(rows: Rows, h: Host, id: Id)
    requires Sound(rows, h)
    ensures Sound(rows, AfterRemove(h, id))
    ensures forall f | Consistent(rows, h, f) :: Consistent(rows, AfterRemove(h, id), f)
  {
    hide ContainerName, ValidServiceName, RowOk, Foreign, Tracked, TrackedAt;
    var h1 := AfterRemove(h, id);
    SoundAfter(rows, h, h1);
    PartStaysConsistent(rows, h, h1);
  }

  /** Consistency looks at names and labels only, and holds of any part of the containers. */
  lemma PartStaysConsistent(rows: Rows, h: Host, h1: Host)
    requires forall id | id in h1.containers ::
               id in h.containers && h1.containers[id].name == h.containers[id].name
               && h1.containers[id].labels == h.containers[id].labels
    ensures forall f | Consistent(rows, h, f) :: Consistent(rows, h1, f)
  {
    hide ContainerName, TrackedAt;
    forall f | Consistent(rows, h, f)
      ensures Consistent(rows, h1, f)
    {
      forall id | Owned(h1, f, id)
        ensures f in rows && PlacedBelow(h1, f, rows[f].replicas, id)
      {
        assert Owned(h, f, id) && id in Members(h, f);
        assert PlacedBelow(h, f, rows[f].replicas, id);
        var i: nat :| i < rows[f].replicas && TrackedAt(h.containers[id], i);
        SameReplicaTracked(h.containers[id], h1.containers[id], i);
      }
      assert forall id | id in Members(h1, f) :: Owned(h1, f, id);
    }
  }

  lemma RequestOk(w0: World, s: Step, w1: World, f: string)
    requires Subject(s.event) == Some(f)
    requires Undisturbed(w1.rows, w0.host, w1.host, f) && w1.rows - {f} == w0.rows - {f}
    requires OwnStep(w0, s, w1, f)
    ensures StepOk(w0, s, w1)
  {
    hide Sound, Consistent, OthersSame, Subject, OwnStep;
    forall g | g != f && ConsistentAt(w0, g)
      ensures ConsistentAt(w1, g)
    {
      OthersStayConsistent(w0.rows, w0.host, w1.rows, w1.host, f, g);
    }
  }

  method Serve(g: Gateway, e: Event) returns (code: int, ghost step: Step)
    requires g.Valid() && Legal(e)
    modifies g.store, g.provider.daemon, g.cleaner.daemon
    ensures g.Valid() && step == Step(e, code, step.smooth)
    ensures (forall k: nat :: g.store.schedule(k)) && (forall k: nat :: g.provider.daemon.schedule(k).Answered?) ==>
              step.smooth
    ensures StepOk(World(old(g.store.rows), old(g.provider.daemon.host)), step,
                   World(g.store.rows, g.provider.daemon.host))
  {
    hide Sound, Consistent, OthersSame, Undisturbed, Up, ValidServiceName, WellFormed, ReadsBack, NormalizeFunctionName,
      Without, StepOk, Placed, Malformed, RowFor, WithNetwork, AnyAvailable, Names, RunReplicas, NewcomersAreReplicas;
    ghost var w0 := World(g.store.rows, g.provider.daemon.host);
    ghost var calls0, calls1 := g.store.calls, g.provider.daemon.calls;
    code := ACCEPTED;
    match e {
      case Deploy(dep) => code := g.HandleDeployFunction(dep);
      case Update(dep) => code := g.HandleUpdateFunction(dep);
      case Delete(name) => code := g.HandleDeleteFunction(name);
      case Scale(name, replicas) => code := g.HandleScaleFunction(name, replicas);
      case Invoke(name, ready) => code := g.PrepareInvocation(name, ready);
      case BuildDeploy(dep) =>
        var _, ok := g.DeployBuiltImage(dep);
        code := if ok then ACCEPTED else SERVER_ERROR;
      case Drift(id, state, status) =>
        g.provider.daemon.Drift(id, state, status);
      case Vanish(id) =>
        g.provider.daemon.Vanish(id);
    }
    step := Step(e, code, g.store.NoFaults(calls0) && g.provider.daemon.NoFaults(calls1));
    ghost var w1 := World(g.store.rows, g.provider.daemon.host);
    if SoundAt(w0) {
      match e {
        case Drift(id, state, status) =>
          DriftKeeps(w0.rows, w0.host, id, state, status);
          OutsideOk(w0, step, w1);
        case Vanish(id) =>
          VanishKeeps(w0.rows, w0.host, id);
          OutsideOk(w0, step, w1);
        case _ =>
          RequestOk(w0, step, w1, Subject(e).value);
      }
    } else {
      NothingPromised(w0, step, w1);
    }
  }

  lemma OutsideOk(w0: World, s: Step, w1: World)
    requires Subject(s.event).None? && SoundAt(w1) && w1.rows == w0.rows
    requires forall f | Consistent(w0.rows, w0.host, f) :: Consistent(w1.rows, w1.host, f)
    ensures StepOk(w0, s, w1)
  {
    hide Sound, Consistent;
  }

  lemma NothingPromised(w0: World, s: Step, w1: World)
    requires !SoundAt(w0)
    ensures StepOk(w0, s, w1)
  {
  }

  ghost predicate Trace(worlds: seq<World>, steps: seq<Step>) {
    |worlds| == |steps| + 1 && forall k | 0 <= k < |steps| :: StepOk(worlds[k], steps[k], worlds[k + 1])
  }

  /** Every run is a trace of such steps: a request that fails half-way leaves names, labels and all other functions
      as they were. */
  method ServeAll(g: Gateway, events: seq<Event>) returns (ghost worlds: seq<World>, ghost steps: seq<Step>)
    requires g.Valid() && forall e | e in events :: Legal(e)
    modifies g.store, g.provider.daemon, g.cleaner.daemon
    ensures g.Valid() && Trace(worlds, steps) && |steps| == |events|
    ensures forall k | 0 <= k < |events| :: steps[k].event == events[k]
    ensures worlds[0] == World(old(g.store.rows), old(g.provider.daemon.host))
    ensures worlds[|events|] == World(g.store.rows, g.provider.daemon.host)
    ensures (forall k: nat :: g.store.schedule(k)) && (forall k: nat :: g.provider.daemon.schedule(k).Answered?) ==>
              forall s | s in steps :: s.smooth
  {
    hide StepOk, WellFormed, Legal;
    worlds, steps := [World(g.store.rows, g.provider.daemon.host)], [];
    for n := 0 to |events|
      invariant g.Valid() && |steps| == n && Trace(worlds, steps)
      invariant forall k | 0 <= k < n :: steps[k].event == events[k]
      invariant worlds[0] == World(old(g.store.rows), old(g.provider.daemon.host))
      invariant worlds[n] == World(g.store.rows, g.provider.daemon.host)
      invariant (forall k: nat :: g.store.schedule(k)) && (forall k: nat :: g.provider.daemon.schedule(k).Answered?) ==>
          forall s | s in steps :: s.smooth
    {
      var code, step := Serve(g, events[n]);
      worlds, steps := worlds + [World(g.store.rows, g.provider.daemon.host)], steps + [step];
    }
  }

  /** Whatever fails, every container stays tracked and every row well-formed in every state of every run. */
  lemma {:induction false} RunsStaySound(worlds: seq<World>, steps: seq<Step>, n: nat)
    requires Trace(worlds, steps) && SoundAt(worlds[0]) && n <= |steps|
    ensures SoundAt(worlds[n])
  {
    hide SoundAt, ConsistentAt, OthersSame;
    if n > 0 {
      RunsStaySound(worlds, steps, n - 1);
      assert StepOk(worlds[n - 1], steps[n - 1], worlds[n - 1 + 1]);
    }
  }

  /** By state `n` the function is mended: it was consistent at the start, or some request mended it, and every request
      about it since then keeps or mends it. */
  ghost predicate Mended(worlds: seq<World>, steps: seq<Step>, f: string, n: nat)
    requires Trace(worlds, steps) && n <= |steps|
  {
    exists from: nat | from <= n ::
      StartsWell(worlds, steps, f, from)
      && forall k | from <= k < n && Subject(steps[k].event) == Some(f) :: KeepsOrMends(worlds[k], steps[k], f)
  }

  ghost predicate KeepsOrMends(w0: World, s: Step, f: string) {
    Keeps(w0, s, f) || Mends(w0, s, f)
  }

  ghost predicate StartsWell(worlds: seq<World>, steps: seq<Step>, f: string, from: nat)
    requires Trace(worlds, steps) && from <= |steps|
  {
    if from == 0 then ConsistentAt(worlds[0], f)
    else Subject(steps[from - 1].event) == Some(f) && Mends(worlds[from - 1], steps[from - 1], f)
  }

  lemma {:induction false} ConsistentFrom(worlds: seq<World>, steps: seq<Step>, f: string, from: nat, n: nat)
    requires Trace(worlds, steps) && SoundAt(worlds[0]) && from <= n <= |steps|
    requires StartsWell(worlds, steps, f, from)
    requires forall k | from <= k < n && Subject(steps[k].event) == Some(f) :: KeepsOrMends(worlds[k], steps[k], f)
    ensures ConsistentAt(worlds[n], f)
  {
    hide SoundAt, ConsistentAt, OthersSame, Subject, Mends, Keeps, IsFirstDeploy;
    if n > 0 {
      RunsStaySound(worlds, steps, n - 1);
      assert StepOk(worlds[n - 1], steps[n - 1], worlds[n - 1 + 1]);
      if n > from {
        ConsistentFrom(worlds, steps, f, from, n - 1);
      }
    }
  }

  /** Failures can be mended: in any run with any failures, once every function has been mended, the store and Docker
      agree again. */
  lemma MendedRunsAgree(worlds: seq<World>, steps: seq<Step>, n: nat)
    requires Trace(worlds, steps) && SoundAt(worlds[0]) && n <= |steps|
    requires forall f :: Mended(worlds, steps, f, n)
    ensures Agreement(worlds[n].rows, worlds[n].host)
  {
    hide Sound, Consistent, OthersSame, StepOk, Subject, KeepsOrMends, StartsWell;
    RunsStaySound(worlds, steps, n);
    forall f
      ensures Consistent(worlds[n].rows, worlds[n].host, f)
    {
      assert Mended(worlds, steps, f, n);
      var from: nat :| from <= n && StartsWell(worlds, steps, f, from)
        && forall k | from <= k < n && Subject(steps[k].event) == Some(f) :: KeepsOrMends(worlds[k], steps[k], f);
      ConsistentFrom(worlds, steps, f, from, n);
      assert ConsistentAt(worlds[n], f);
    }
  }

  /** A single step that keeps or mends its function keeps agreement. */
  lemma StepAgrees(w0: World, s: Step, w1: World)
    requires StepOk(w0, s, w1) && Agreement(w0.rows, w0.host)
    requires forall f | Subject(s.event) == Some(f) :: KeepsOrMends(w0, s, f)
    ensures Agreement(w1.rows, w1.host)
  {
    hide Sound, Consistent, OthersSame, Subject, Keeps, Mends, IsFirstDeploy;
    match Subject(s.event) {
      case None =>
        forall f
          ensures Consistent(w1.rows, w1.host, f)
        {
          assert ConsistentAt(w0, f) && ConsistentAt(w1, f);
        }
      case Some(f) =>
        assert ConsistentAt(w0, f) && KeepsOrMends(w0, s, f) && ConsistentAt(w1, f);
        ServedAgrees(w0.rows, w0.host, w1.rows, w1.host, f);
    }
  }

  /** The store and Docker agree in every state of every run in which each request keeps or mends its function. When no
      call fails that is every run. */
  lemma {:induction false} KeepingRunsAgree(worlds: seq<World>, steps: seq<Step>, n: nat)
    requires Trace(worlds, steps) && Agreement(worlds[0].rows, worlds[0].host) && n <= |steps|
    requires forall k, f | 0 <= k < n && Subject(steps[k].event) == Some(f) :: KeepsOrMends(worlds[k], steps[k], f)
    ensures Agreement(worlds[n].rows, worlds[n].host)
  {
    hide Agreement, StepOk, Subject, KeepsOrMends;
    if n > 0 {
      KeepingRunsAgree(worlds, steps, n - 1);
      assert StepOk(worlds[n - 1], steps[n - 1], worlds[n - 1 + 1]);
      StepAgrees(worlds[n - 1], steps[n - 1], worlds[n]);
    }
  }

  /** When no call fails, the store and Docker agree in every state of every run. */
  lemma SmoothRunsAgree(worlds: seq<World>, steps: seq<Step>, n: nat)
    requires Trace(worlds, steps) && Agreement(worlds[0].rows, worlds[0].host) && n <= |steps|
    requires forall s | s in steps :: s.smooth
    ensures Agreement(worlds[n].rows, worlds[n].host)
  {
    hide Agreement, StepOk, Subject;
    KeepingRunsAgree(worlds, steps, n);
  }

  /** Delete, then deploy: a container other than the first replica that the delete could not remove stays behind, and a
      deploy that is accepted on top, even with no call failing, leaves the records in disagreement. */
  lemma LeftoverOutlivesDeploy(worlds: seq<World>, steps: seq<Step>, n: nat, f: string, id: Id)
    requires Trace(worlds, steps) && SoundAt(worlds[0]) && n < |steps|
    requires Subject(steps[n].event) == Some(f) && IsFirstDeploy(worlds[n], steps[n], f)
    requires Owned(worlds[n].host, f, id) && worlds[n].host.containers[id].name != ContainerName(f, 0)
    ensures !Agreement(worlds[n + 1].rows, worlds[n + 1].host)
  {
    hide Sound, Consistent, OthersSame, Subject, Mends, Keeps, IsFirstDeploy, ContainerName;
    RunsStaySound(worlds, steps, n);
    assert StepOk(worlds[n], steps[n], worlds[n + 1]);
    PlacedMeansNamed(worlds[n].rows, worlds[n].host, f, 1);
    assert !ConsistentAt(worlds[n + 1], f);
  }
}
