/** Function networks: the gateway is a member of each, loses one when a function is deleted, and is put back by a
    reconciliation run. */
module Networks {
  import opened GoText
  import opened Faults

  const LABEL_NETWORK_TYPE := "com.docker-faas.network.type"
  const LABEL_NETWORK_FUNCTION := "com.docker-faas.network.function"

  /** A Docker network: its labels, the containers on it other than the gateway, whether the gateway is on it, and
      whether it would let the gateway join. */
  datatype Network = Network(labels: map<string, string>, others: set<string>, gateway: bool, accepts: bool)

  type Nets = map<string, Network>

  function Joined(nets: Nets, name: string): Nets {
    if name in nets && nets[name].accepts then nets[name := nets[name].(gateway := true)] else nets
  }

  function Left(nets: Nets, name: string): Nets {
    if name in nets then nets[name := nets[name].(gateway := false)] else nets
  }

  /** The networks the gateway is on. */
  function Attached(nets: Nets): set<string> {
    set name | name in nets && nets[name].gateway
  }

  datatype ConnectReply = Connected | AlreadyConnected | NetworkNotFound | ConnectFailed

  class Daemon {
    const schedule: nat -> Fault
    var calls: nat
    var nets: Nets

    constructor (schedule: nat -> Fault, nets: Nets)
      ensures this.schedule == schedule && this.nets == nets && calls == 0
    {
      this.schedule, this.nets, calls := schedule, nets, 0;
    }

    ghost predicate Reliable()
      reads this
    {
      forall k: nat :: schedule(k).Answered?
    }

    method Inspect() returns (attached: Option<set<string>>)
      modifies this`calls
      ensures attached.Some? ==> attached.value == Attached(nets)
      ensures Reliable() ==> attached.Some?
    {
      attached := if schedule(calls).Answered? then Some(Attached(nets)) else None;
      calls := calls + 1;
    }

    method NetworkConnect(name: string) returns (reply: ConnectReply)
      modifies this
      ensures nets == old(nets) || nets == Joined(old(nets), name)
      ensures reply.Connected? ==> name in old(nets) && !old(nets)[name].gateway && old(nets)[name].accepts
      ensures reply.Connected? || reply.AlreadyConnected? ==> name in Attached(nets)
      ensures reply.AlreadyConnected? ==> name in Attached(old(nets))
      ensures Reliable() ==> nets == Joined(old(nets), name) && (reply == if name !in old(nets) then NetworkNotFound
                             else if old(nets)[name].gateway then AlreadyConnected
                             else if old(nets)[name].accepts then Connected else ConnectFailed)
    {
      var fault := schedule(calls);
      calls := calls + 1;
      reply :=
        if fault.Refused? then ConnectFailed
        else if name !in nets then NetworkNotFound
        else if nets[name].gateway then AlreadyConnected
        else if !nets[name].accepts || fault.ReplyLost? then ConnectFailed
        else Connected;
      if !fault.Refused? && name in nets && !nets[name].gateway {
        nets := Joined(nets, name);
      }
      assert name in nets && nets[name].gateway ==> nets == Joined(nets, name);
    }

    /** The outcome is only logged by the one caller. */
    method NetworkDisconnect(name: string)
      modifies this
      ensures nets == old(nets) || nets == Left(old(nets), name)
      ensures Reliable() ==> nets == Left(old(nets), name)
    {
      if !schedule(calls).Refused? {
        nets := Left(nets, name);
      }
      calls := calls + 1;
    }

    method NetworkInspect(name: string) returns (reply: Reply<Network>)
      modifies this`calls
      ensures reply.Done? ==> name in nets && reply.value == nets[name]
      ensures reply.NotFound? ==> name !in nets
      ensures Reliable() ==> !reply.Failed?
    {
      reply := if !schedule(calls).Answered? then Failed else if name in nets then Done(nets[name]) else NotFound;
      calls := calls + 1;
    }

    /** Docker keeps a network that still has containers on it. */
    method NetworkRemove(name: string) returns (ok: bool)
      modifies this
      ensures nets == old(nets) || (nets == old(nets) - {name} && (name in old(nets) ==> !InUse(old(nets)[name])))
      ensures Reliable() && name in old(nets) && !InUse(old(nets)[name]) ==> ok && nets == old(nets) - {name}
    {
      var fault := schedule(calls);
      calls := calls + 1;
      var possible := name in nets && !InUse(nets[name]);
      ok := fault.Answered? && possible;
      if !fault.Refused? && possible {
        nets := nets - {name};
      }
    }
  }

  predicate InUse(n: Network) {
    n.gateway || n.others != {}
  }

  // What a reconciliation run does when no call fails.

  /** The gateway joins every listed network that exists and lets it in. */
  function Reconciled(nets: Nets, listed: seq<string>): Nets {
    map name | name in nets ::
      if name != "" && name in listed && nets[name].accepts then nets[name].(gateway := true) else nets[name]
  }

  predicate Joins(nets: Nets, name: string) {
    name != "" && name in nets && !nets[name].gateway && nets[name].accepts
  }

  /** The listed names the run connects, repetitions included. */
  function Joining(nets: Nets, listed: seq<string>): seq<string> {
    if listed == [] then []
    else
      var last := listed[|listed| - 1];
      Joining(nets, listed[..|listed| - 1]) + if Joins(nets, last) then [last] else []
  }

  lemma {:induction false} JoiningMembers(nets: Nets, listed: seq<string>, name: string)
    ensures name in Joining(nets, listed) <==> name in listed && Joins(nets, name)
  {
    if listed != [] {
      JoiningMembers(nets, listed[..|listed| - 1], name);
      assert listed == listed[..|listed| - 1] + [listed[|listed| - 1]];
    }
  }

  predicate Distinct(names: seq<string>) {
    forall a, b | 0 <= a < b < |names| :: names[a] != names[b]
  }

  function Names(names: seq<string>): set<string> {
    set n | n in names
  }

  lemma {:induction false} SizeIffDistinct(names: seq<string>)
    ensures |Names(names)| <= |names|
    ensures |Names(names)| == |names| <==> Distinct(names)
  {
    if names != [] {
      var init, last := names[..|names| - 1], names[|names| - 1];
      SizeIffDistinct(init);
      assert names == init + [last];
      assert Names(names) == Names(init) + {last};
      if last in init {
        var a :| 0 <= a < |init| && init[a] == last;
        assert names[a] == names[|names| - 1];
      } else {
        assert last !in Names(init);
      }
    }
  }

  /** Afterwards the gateway is on its old networks and every listed one it could join. */
  lemma ReconciledAttaches(nets: Nets, listed: seq<string>)
    ensures Attached(Reconciled(nets, listed)) == Attached(nets) + Names(Joining(nets, listed))
    ensures Attached(nets) !! Names(Joining(nets, listed))
    ensures forall name :: name in Attached(Reconciled(nets, listed)) <==>
              name in nets && (nets[name].gateway || (name != "" && name in listed && nets[name].accepts))
  {
    forall name
      ensures name in Joining(nets, listed) <==> name in listed && Joins(nets, name)
    {
      JoiningMembers(nets, listed, name);
    }
  }

  /** The reported count is the number of new networks exactly when no network it joins is listed twice:
      the second time "already connected" counts as one more. */
  lemma CountIsNewIffDistinct(nets: Nets, listed: seq<string>)
    ensures |Joining(nets, listed)| == |Attached(Reconciled(nets, listed)) - Attached(nets)|
            <==> Distinct(Joining(nets, listed))
    ensures |Joining(nets, listed)| >= |Attached(Reconciled(nets, listed)) - Attached(nets)|
  {
    ReconciledAttaches(nets, listed);
    SizeIffDistinct(Joining(nets, listed));
    assert Attached(Reconciled(nets, listed)) - Attached(nets) == Names(Joining(nets, listed));
  }

  /** Two functions on one network: one attachment, reported as two. */
  lemma SharedNetworkCountsTwice() returns (nets: Nets, listed: seq<string>)
    ensures |Joining(nets, listed)| == 2 && |Attached(Reconciled(nets, listed)) - Attached(nets)| == 1
  {
    nets, listed := map["n" := Network(map[], {}, false, true)], ["n", "n"];
    assert listed[..1] == ["n"] && ["n"][..0] == [];
    assert Joining(nets, ["n"]) == ["n"];
    ReconciledAttaches(nets, listed);
    assert Attached(Reconciled(nets, listed)) - Attached(nets) == {"n"};
  }

  /** A second run on an unchanged world attaches nothing, reports 0 and changes nothing. */
  lemma SecondRunDoesNothing(nets: Nets, listed: seq<string>)
    ensures Joining(Reconciled(nets, listed), listed) == []
    ensures Reconciled(Reconciled(nets, listed), listed) == Reconciled(nets, listed)
  {
    var after := Reconciled(nets, listed);
    if Joining(after, listed) != [] {
      var name := Joining(after, listed)[0];
      JoiningMembers(after, listed, name);
    }
  }

  lemma JoinOneMore(nets: Nets, listed: seq<string>, name: string)
    ensures Reconciled(nets, listed + [name]) ==
            if name == "" then Reconciled(nets, listed) else Joined(Reconciled(nets, listed), name)
    ensures name == "" || name in Attached(nets) ==> !Joins(nets, name)
    ensures name in Attached(nets) ==> Reconciled(nets, listed + [name]) == Reconciled(nets, listed)
    ensures |Joining(nets, listed + [name])| == |Joining(nets, listed)| + if Joins(nets, name) then 1 else 0
  {
    assert (listed + [name])[..|listed|] == listed;
    assert forall x :: x in listed + [name] <==> x in listed || x == name;
  }

  ghost predicate SameButGateway(a: Nets, b: Nets) {
    a.Keys == b.Keys && forall name | name in a :: a[name].(gateway := b[name].gateway) == b[name]
  }

  lemma RunStart(start: Nets)
    ensures Reconciled(start, []) == start && Joining(start, []) == [] && SameButGateway(start, start)
  {
  }

  /** One name further into a run, the connect having worked or not. */
  lemma RunStep(start: Nets, now: Nets, next: Nets, listed: seq<string>, name: string)
    requires SameButGateway(start, now) && Attached(now) <= Attached(Reconciled(start, listed))
    requires next == now || (name != "" && next == Joined(now, name))
    ensures SameButGateway(start, next) && Attached(now) <= Attached(next)
    ensures Attached(next) <= Attached(Reconciled(start, listed + [name]))
    ensures name != "" && name in Attached(next) && name !in Attached(start) ==> Joins(start, name)
  {
    forall x | x in Attached(next)
      ensures x in Attached(Reconciled(start, listed + [name]))
    {
      if x !in Attached(now) {
        assert x == name && start[x].accepts;
        assert name in listed + [name];
      } else {
        assert x in Attached(Reconciled(start, listed));
      }
    }
  }

  lemma ConnectsIffJoins(start: Nets, listed: seq<string>, name: string)
    requires name != "" && name !in Attached(start)
    ensures var now := Reconciled(start, listed);
            name in now && (now[name].gateway || now[name].accepts) <==> Joins(start, name)
  {
  }

  // Cleanup after a function is deleted.

  function FunctionNetworkName(baseNetwork: string, service: string): string {
    if baseNetwork == "" then service else baseNetwork + "-" + service
  }

  predicate IsManagedFunctionNetwork(baseNetwork: string, networkName: string, functionName: string,
                                     labels: map<string, string>)
  {
    (functionName != "" && networkName == FunctionNetworkName(baseNetwork, functionName))
    || (LABEL_NETWORK_TYPE in labels && labels[LABEL_NETWORK_TYPE] == "function"
        && (LABEL_NETWORK_FUNCTION !in labels || labels[LABEL_NETWORK_FUNCTION] in {"", functionName}))
  }

  /** A network is a cleanup's to touch if it bears the function's own name below the base network, or if its labels
      call it a function network of this function or of none in particular. */
  lemma ManagedNetworks(baseNetwork: string, name: string, functionName: string, labels: map<string, string>)
    ensures functionName != "" && baseNetwork != "" ==>
              IsManagedFunctionNetwork(baseNetwork, baseNetwork + "-" + functionName, functionName, labels)
    ensures functionName != "" && baseNetwork == "" ==>
              IsManagedFunctionNetwork(baseNetwork, functionName, functionName, labels)
    ensures name != baseNetwork + "-" + functionName && name != functionName ==>
              (IsManagedFunctionNetwork(baseNetwork, name, functionName, labels) <==>
                 "com.docker-faas.network.type" in labels && labels["com.docker-faas.network.type"] == "function"
                 && ("com.docker-faas.network.function" in labels ==>
                       labels["com.docker-faas.network.function"] == ""
                       || labels["com.docker-faas.network.function"] == functionName))
  {
  }

  /** A cleanup never takes another function's labelled network, nor one that carries no labels, unless it bears the
      deleted function's own name. */
  lemma OtherNetworksStay(nets: Nets, baseNetwork: string, connects: bool, functionName: string, name: string)
    requires name in nets && name != baseNetwork + "-" + functionName && name != functionName
    requires nets[name].labels == map[]
             || ("com.docker-faas.network.function" in nets[name].labels
                 && nets[name].labels["com.docker-faas.network.function"] !in {"", functionName})
    ensures Cleaned(nets, baseNetwork, connects, functionName, name) == nets
  {
    ManagedNetworks(baseNetwork, name, functionName, nets[name].labels);
  }

  /** The networks after a cleanup in which no call fails: a managed network loses the gateway (if the gateway joins
      networks at all), and goes away when nothing is left on it. */
  function Cleaned(nets: Nets, baseNetwork: string, connects: bool, functionName: string, name: string): Nets {
    if name == "" || name !in nets || !IsManagedFunctionNetwork(baseNetwork, name, functionName, nets[name].labels)
    then nets
    else
      var left := if connects then Left(nets, name) else nets;
      if InUse(left[name]) then left else left - {name}
  }

  /** A run after a cleanup puts the gateway on a stored function's network again exactly when the network is still
      there (another container uses it, or it was not this cleanup's to touch) and the gateway was left on it or may
      join. */
  lemma ReconcileAfterCleanup(nets: Nets, baseNetwork: string, functionName: string, cleaned: string,
                                                 listed: seq<string>, name: string)
    requires name != "" && name in listed && name in nets
    ensures var before := Cleaned(nets, baseNetwork, true, functionName, cleaned);
            var mine := name == cleaned && IsManagedFunctionNetwork(baseNetwork, name, functionName, nets[name].labels);
            (name in Attached(Reconciled(before, listed)) <==>
               if mine then nets[name].others != {} && nets[name].accepts else nets[name].gateway || nets[name].accepts)
            && (mine ==> name !in Attached(before))
  {
  }

  /** The networks of the stored functions that name one. */
  function StoredNetworks(networks: seq<string>): seq<string> {
    if networks == [] then []
    else StoredNetworks(networks[..|networks| - 1])
         + if networks[|networks| - 1] != "" then [networks[|networks| - 1]] else []
  }

  lemma {:induction false} StoredMembers(networks: seq<string>, name: string)
    ensures name in StoredNetworks(networks) <==> name != "" && name in networks
  {
    if networks != [] {
      StoredMembers(networks[..|networks| - 1], name);
      assert networks == networks[..|networks| - 1] + [networks[|networks| - 1]];
    }
  }

  method ListFunctionNetworks(networks: seq<string>) returns (listed: seq<string>)
    ensures listed == StoredNetworks(networks)
  {
    listed := [];
    for k := 0 to |networks|
      invariant listed == StoredNetworks(networks[..k])
    {
      assert networks[..k + 1][..k] == networks[..k];
      if networks[k] != "" {
        listed := listed + [networks[k]];
      }
    }
    assert networks[..|networks|] == networks;
  }

  /** Deleting a function may cut the gateway off a network other stored functions still use; one run restores every
      stored function's network that is in use and can be joined. */
  lemma RunRestoresStored(nets: Nets, baseNetwork: string, functionName: string, cleaned: string,
                                             stored: seq<string>)
    ensures var after := Reconciled(Cleaned(nets, baseNetwork, true, functionName, cleaned), StoredNetworks(stored));
            forall name |
              name in stored && name != "" && name in nets && nets[name].accepts && nets[name].others != {} ::
              name in Attached(after)
  {
    forall name | name in stored && name != "" && name in nets && nets[name].accepts && nets[name].others != {}
      ensures var before := Cleaned(nets, baseNetwork, true, functionName, cleaned);
              name in Attached(Reconciled(before, StoredNetworks(stored)))
    {
      StoredMembers(stored, name);
      ReconcileAfterCleanup(nets, baseNetwork, functionName, cleaned, StoredNetworks(stored), name);
    }
  }

  /** No network another container is on is lost, and other functions' networks are untouched. */
  lemma CleanupSparesOthers(nets: Nets, baseNetwork: string, connects: bool, functionName: string,
                                               cleaned: string, name: string)
    requires name in nets
    ensures var after := Cleaned(nets, baseNetwork, connects, functionName, cleaned);
            (name !in after ==> name == cleaned && nets[name].others == {} && (nets[name].gateway ==> connects)
                                && IsManagedFunctionNetwork(baseNetwork, name, functionName, nets[name].labels))
            && (name in after ==> after[name].others == nets[name].others
                                  && (after[name] != nets[name] ==> name == cleaned && nets[name].others != {}))
  {
  }

  class NetworkReconciler {
    const gatewayID: string
    const daemon: Daemon

    constructor (gatewayID: string, daemon: Daemon)
      ensures this.gatewayID == gatewayID && this.daemon == daemon
    {
      this.gatewayID, this.daemon := gatewayID, daemon;
    }

    method ConnectToNetwork(name: string) returns (ok: bool)
      modifies daemon
      ensures daemon.nets == old(daemon.nets) || daemon.nets == Joined(old(daemon.nets), name)
      ensures ok ==> name in Attached(daemon.nets)
      ensures daemon.Reliable() ==> daemon.nets == Joined(old(daemon.nets), name)
      ensures daemon.Reliable() ==>
              (ok <==> name in old(daemon.nets) && (old(daemon.nets)[name].gateway || old(daemon.nets)[name].accepts))
    {
      var reply := daemon.NetworkConnect(name);
      ok := reply.Connected? || reply.AlreadyConnected?;
    }

    /** One run. A failed connect is logged and skipped; only the inspection and the listing are errors. */
    method ReconcileOnce(listing: Option<seq<string>>) returns (count: nat, ok: bool)
      modifies daemon
      ensures gatewayID == "" || !ok || listing == Some([]) ==> count == 0 && daemon.nets == old(daemon.nets)
      ensures gatewayID == "" ==> ok
      ensures Attached(old(daemon.nets)) <= Attached(daemon.nets)
      ensures listing.Some? ==> Attached(daemon.nets) <= Attached(Reconciled(old(daemon.nets), listing.value))
                                && count <= |Joining(old(daemon.nets), listing.value)|
      ensures daemon.Reliable() && gatewayID != "" ==> (ok <==> listing.Some?)
      ensures daemon.Reliable() && gatewayID != "" && ok ==>
              daemon.nets == Reconciled(old(daemon.nets), listing.value)
              && count == |Joining(old(daemon.nets), listing.value)|
    {
      hide Reconciled, Joined, Attached, SameButGateway, Joining, Joins;
      count := 0;
      if listing.Some? {
        ReconciledAttaches(daemon.nets, listing.value);
      }
      if gatewayID == "" {
        return 0, true;
      }
      var attached := daemon.Inspect();
      if attached.None? || listing.None? {
        return 0, false;
      }
      var listed := listing.value;
      ghost var start := daemon.nets;
      RunStart(start);
      for k := 0 to |listed|
        invariant Attached(start) <= Attached(daemon.nets) && SameButGateway(start, daemon.nets)
        invariant Attached(daemon.nets) <= Attached(Reconciled(start, listed[..k]))
        invariant k == 0 ==> count == 0 && daemon.nets == start
        invariant count <= |Joining(start, listed[..k])|
        invariant daemon.Reliable() ==>
            daemon.nets == Reconciled(start, listed[..k]) && count == |Joining(start, listed[..k])|
      {
        assert listed[..k + 1] == listed[..k] + [listed[k]];
        JoinOneMore(start, listed[..k], listed[k]);
        ghost var now := daemon.nets;
        RunStep(start, now, now, listed[..k], listed[k]);
        if listed[k] == "" || listed[k] in attached.value {
          continue;
        }
        ConnectsIffJoins(start, listed[..k], listed[k]);
        var connected := ConnectToNetwork(listed[k]);
        RunStep(start, now, daemon.nets, listed[..k], listed[k]);
        if !connected {
          continue;
        }
        count := count + 1;
      }
      assert listed[..|listed|] == listed;
      ok := true;
    }
  }

  /** The networks after a cleanup in which calls may fail: at worst it stopped half-way. */
  ghost predicate PartlyCleaned(before: Nets, after: Nets, baseNetwork: string, connects: bool, functionName: string,
                                name: string)
  {
    after == before
    || after == Cleaned(before, baseNetwork, connects, functionName, name)
    || (after == Left(before, name) && connects && name in before
        && IsManagedFunctionNetwork(baseNetwork, name, functionName, before[name].labels))
  }

  class NetworkCleaner {
    const daemon: Daemon
    const baseNetwork: string
    const connectGateway: bool
    const gatewayID: string

    constructor (daemon: Daemon, baseNetwork: string, connectGateway: bool, gatewayID: string)
      ensures this.daemon == daemon && this.baseNetwork == baseNetwork
      ensures this.connectGateway == connectGateway && this.gatewayID == gatewayID
    {
      this.daemon, this.baseNetwork := daemon, baseNetwork;
      this.connectGateway, this.gatewayID := connectGateway, gatewayID;
    }

    /** What a cleanup may have done to `before`, and has done if no call failed. */
    ghost predicate Cleans(before: Nets, functionName: string, name: string)
      reads daemon
    {
      var connects := connectGateway && gatewayID != "";
      PartlyCleaned(before, daemon.nets, baseNetwork, connects, functionName, name)
      && (daemon.Reliable() ==> daemon.nets == Cleaned(before, baseNetwork, connects, functionName, name))
    }

    method CleanupFunctionNetwork(functionName: string, name: string) returns (ok: bool)
      modifies daemon
      ensures Cleans(old(daemon.nets), functionName, name)
      ensures daemon.Reliable() ==> ok
    {
      hide IsManagedFunctionNetwork;
      if name == "" {
        return true;
      }
      var inspect := daemon.NetworkInspect(name);
      if !inspect.Done? {
        return inspect.NotFound?;
      }
      if !IsManagedFunctionNetwork(baseNetwork, name, functionName, inspect.value.labels) {
        return true;
      }
      if connectGateway && gatewayID != "" {
        daemon.NetworkDisconnect(name);
      }
      inspect := daemon.NetworkInspect(name);
      if !inspect.Done? {
        return inspect.NotFound?;
      }
      if InUse(inspect.value) {
        return true;
      }
      ok := daemon.NetworkRemove(name);
    }
  }
}
