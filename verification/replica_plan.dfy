/** The replica planner: which containers of a function to remove and which indices to create. */
module ReplicaPlan {
  import opened GoText
  import opened ReplicaNames

  type Id = nat

  predicate IsRunningState(state: string, status: string) {
    var st := ToLower(TrimSpace(status));
    ToLower(TrimSpace(state)) == "running" || Contains(st, "running") || HasPrefix(st, "up ")
  }

  predicate IsStaleState(state: string, status: string) {
    var st := ToLower(TrimSpace(status));
    ToLower(TrimSpace(state)) in {"created", "exited", "dead"}
    || Contains(st, "created") || Contains(st, "exited") || Contains(st, "dead")
  }

  /** One line of a container listing. */
  datatype Summary = Summary(id: Id, names: seq<string>, labels: map<string, string>,
                             state: string, status: string, created: int)
  {
    predicate Running() { IsRunningState(state, status) }
    predicate Stale() { IsStaleState(state, status) }
    function Standing(): Rank { Rank(Running(), created) }
    function Index(): Option<int> { ReplicaIndex(labels, names) }
    predicate ActiveAt(i: int) { !Stale() && Index() == Some(i) }
    predicate Unindexed() { !Stale() && Index().None? }
  }

  datatype Plan = Plan(stale: seq<Summary>, active: seq<Summary>, missing: seq<nat>)

  function Filter(cs: seq<Summary>, p: Summary -> bool): seq<Summary> {
    if cs == [] then []
    else
      var rest := Filter(cs[..|cs| - 1], p);
      if p(cs[|cs| - 1]) then rest + [cs[|cs| - 1]] else rest
  }

  lemma {:induction false} FilterCount(cs: seq<Summary>, p: Summary -> bool, c: Summary)
    ensures multiset(Filter(cs, p))[c] == if p(c) then multiset(cs)[c] else 0
  {
    if cs != [] {
      FilterCount(cs[..|cs| - 1], p, c);
      assert cs == cs[..|cs| - 1] + [cs[|cs| - 1]];
    }
  }

  function StaleOf(cs: seq<Summary>): seq<Summary> {
    Filter(cs, (c: Summary) => c.Stale())
  }

  function UnindexedOf(cs: seq<Summary>): seq<Summary> {
    Filter(cs, (c: Summary) => c.Unindexed())
  }

  /** The active containers at one index, in listing order. */
  function Group(cs: seq<Summary>, i: int): seq<Summary> {
    Filter(cs, (c: Summary) => c.ActiveAt(i))
  }

  lemma GroupCount(cs: seq<Summary>, i: int, c: Summary)
    ensures multiset(Group(cs, i))[c] == if c.ActiveAt(i) then multiset(cs)[c] else 0
    ensures c in Group(cs, i) <==> c in cs && c.ActiveAt(i)
  {
    FilterCount(cs, (c: Summary) => c.ActiveAt(i), c);
    assert c in Group(cs, i) <==> c in multiset(Group(cs, i));
    assert c in cs <==> c in multiset(cs);
  }

  /** What decides which container of an index is kept. */
  datatype Rank = Rank(running: bool, created: int)

  /** `a` comes strictly before `b` in the order (running, creation time). */
  predicate Outranks(a: Rank, b: Rank) {
    (a.running && !b.running) || (a.running == b.running && a.created > b.created)
  }

  function Ranks(group: seq<Summary>): seq<Rank> {
    seq(|group|, i requires 0 <= i < |group| => group[i].Standing())
  }

  /** Position `p` holds a highest rank, and no earlier position does. */
  ghost predicate FirstTop(ranks: seq<Rank>, p: nat) {
    p < |ranks|
    && (forall j | 0 <= j < p :: Outranks(ranks[p], ranks[j]))
    && (forall j | 0 <= j < |ranks| :: !Outranks(ranks[j], ranks[p]))
  }

  ghost function FirstTopIndex(ranks: seq<Rank>): (p: nat)
    requires ranks != []
    ensures FirstTop(ranks, p)
  {
    var n := |ranks| - 1;
    if n == 0 then 0
    else
      var p := FirstTopIndex(ranks[..n]);
      if Outranks(ranks[n], ranks[p]) then n else p
  }

  /** `k` is the first of the highest-ranked containers of the group. */
  ghost predicate IsKeeper(group: seq<Summary>, k: Summary) {
    exists p: nat :: FirstTop(Ranks(group), p) && group[p] == k
  }

  method SelectReplicaKeeper(group: seq<Summary>) returns (keeper: Summary)
    requires group != []
    ensures IsKeeper(group, keeper) && keeper in group
    ensures forall c | c in group ::
              (c.Running() ==> keeper.Running()) && (c.Running() == keeper.Running() ==> c.created <= keeper.created)
    ensures exists p :: 0 <= p < |group| && group[p] == keeper && NoneEqualBefore(group, p)
  {
    hide IsRunningState;
    ghost var ranks := Ranks(group);
    keeper := group[0];
    ghost var p := 0;
    for n := 1 to |group|
      invariant p < n && group[p] == keeper
      invariant FirstTop(ranks[..n], p)
    {
      var candidate := group[n];
      assert ranks[n] == candidate.Standing() && ranks[p] == keeper.Standing();
      if candidate.Running() && !keeper.Running() {
        keeper, p := candidate, n;
        continue;
      }
      if candidate.Running() == keeper.Running() && candidate.created > keeper.created {
        keeper, p := candidate, n;
      }
    }
    assert ranks[..|group|] == ranks;
    assert forall k | 0 <= k < |group| :: ranks[k] == group[k].Standing();
    assert NoneEqualBefore(group, p);
  }

  /** Nothing before position `p` is as good: the first of equals is kept. */
  ghost predicate NoneEqualBefore(group: seq<Summary>, p: int)
    requires p < |group|
  {
    forall q | 0 <= q < p :: group[q].Running() != group[p].Running() || group[q].created < group[p].created
  }

  ghost function Keeper(group: seq<Summary>): (k: Summary)
    requires group != []
    ensures IsKeeper(group, k) && k in group
  {
    group[FirstTopIndex(Ranks(group))]
  }

  lemma KeeperUnique(group: seq<Summary>, k: Summary)
    requires IsKeeper(group, k)
    ensures group != [] && k == Keeper(group)
  {
    hide IsRunningState, FirstTopIndex, Keeper, Outranks;
    var p: nat :| FirstTop(Ranks(group), p) && group[p] == k;
    var q: nat :| FirstTop(Ranks(group), q) && group[q] == Keeper(group);
    FirstTopUnique(Ranks(group), p, q);
  }

  lemma FirstTopUnique(ranks: seq<Rank>, p: nat, q: nat)
    requires FirstTop(ranks, p) && FirstTop(ranks, q)
    ensures p == q
  {
    var top, other := ranks[p], ranks[q];
    assert !Outranks(other, top) && !Outranks(top, other);
  }

  /** How many copies of `c` a plan for `target` replicas removes among the active containers. */
  ghost function RemovalCount(cs: seq<Summary>, target: int, c: Summary): nat {
    match c.Index()
    case None => if !c.Stale() && target == 0 then multiset(cs)[c] else 0
    case Some(i) =>
      var group := Group(cs, i);
      if c.Stale() || group == [] then 0
      else (if c.id != Keeper(group).id then multiset(cs)[c] else 0)
           + (if c == Keeper(group) && i >= target then 1 else 0)
  }

  ghost predicate Ascending(xs: seq<nat>) {
    forall a, b | 0 <= a < b < |xs| :: xs[a] < xs[b]
  }

  ghost predicate IsPlan(cs: seq<Summary>, target: int, plan: Plan) {
    plan.stale == StaleOf(cs)
    && (forall c :: multiset(plan.active)[c] == RemovalCount(cs, target, c))
    && Ascending(plan.missing)
    && (forall i :: i in plan.missing <==> 0 <= i < target && Group(cs, i) == [])
  }

  /** `RemovalCount` while only the groups in `decided` have been looked at
      and only the keepers at `dropped` indices have been discarded. */
  ghost function PartialCount(cs: seq<Summary>, target: int, decided: set<int>, dropped: set<int>, c: Summary): nat {
    match c.Index()
    case None => if !c.Stale() && target == 0 then multiset(cs)[c] else 0
    case Some(i) =>
      var group := Group(cs, i);
      if c.Stale() || group == [] then 0
      else (if i in decided && c.id != Keeper(group).id then multiset(cs)[c] else 0)
           + (if i in dropped && c == Keeper(group) then 1 else 0)
  }

  method GroupByIndex(cs: seq<Summary>, target: int)
    returns (stale: seq<Summary>, active: seq<Summary>, grouped: map<int, seq<Summary>>)
    ensures stale == StaleOf(cs)
    ensures active == if target == 0 then UnindexedOf(cs) else []
    ensures forall i :: i in grouped <==> Group(cs, i) != []
    ensures forall i :: i in grouped ==> grouped[i] == Group(cs, i)
  {
    stale, active, grouped := [], [], map[];
    for n := 0 to |cs|
      invariant stale == StaleOf(cs[..n])
      invariant active == if target == 0 then UnindexedOf(cs[..n]) else []
      invariant forall i :: i in grouped <==> Group(cs[..n], i) != []
      invariant forall i :: i in grouped ==> grouped[i] == Group(cs[..n], i)
    {
      var c := cs[n];
      assert cs[..n + 1][..n] == cs[..n];
      if c.Stale() {
        stale := stale + [c];
        continue;
      }
      match c.Index() {
        case None =>
          if target == 0 {
            active := active + [c];
          }
        case Some(i) =>
          var before := if i in grouped then grouped[i] else [];
          grouped := grouped[i := before + [c]];
      }
    }
    assert cs[..|cs|] == cs;
  }

  /** Everything in the group except the keeper (compared by container id). */
  method Losers(group: seq<Summary>, keeper: Summary) returns (losers: seq<Summary>)
    ensures forall c :: multiset(losers)[c] == if c.id != keeper.id then multiset(group)[c] else 0
  {
    losers := [];
    for n := 0 to |group|
      invariant forall c :: multiset(losers)[c] == if c.id != keeper.id then multiset(group[..n])[c] else 0
    {
      assert group[..n + 1] == group[..n] + [group[n]];
      if group[n].id != keeper.id {
        losers := losers + [group[n]];
      }
    }
    assert group[..|group|] == group;
  }

  /** Picks a keeper per group, visiting the groups in any order, and collects all others. */
  method PickKeepers(cs: seq<Summary>, target: int, grouped: map<int, seq<Summary>>, unindexed: seq<Summary>)
    returns (keepers: map<int, Summary>, active: seq<Summary>)
    requires unindexed == if target == 0 then UnindexedOf(cs) else []
    requires forall i :: i in grouped <==> Group(cs, i) != []
    requires forall i :: i in grouped ==> grouped[i] == Group(cs, i)
    ensures keepers.Keys == grouped.Keys
    ensures forall i :: i in keepers ==> Group(cs, i) != [] && keepers[i] == Keeper(Group(cs, i))
    ensures forall c :: multiset(active)[c] == PartialCount(cs, target, keepers.Keys, {}, c)
  {
    hide PartialCount, Group, UnindexedOf, IsRunningState, IsStaleState, ReplicaIndex;
    keepers, active := map[], unindexed;
    forall c
      ensures multiset(active)[c] == PartialCount(cs, target, {}, {}, c)
    {
      UndecidedCount(cs, target, unindexed, c);
    }
    var todo := grouped.Keys;
    assert keepers.Keys == {};
    while todo != {}
      invariant todo <= grouped.Keys && keepers.Keys == grouped.Keys - todo
      invariant forall i :: i in keepers ==> keepers[i] == Keeper(Group(cs, i))
      invariant forall c :: multiset(active)[c] == PartialCount(cs, target, keepers.Keys, {}, c)
    {
      var i := NextKey(todo);
      var keeper := SelectReplicaKeeper(grouped[i]);
      KeeperUnique(grouped[i], keeper);
      var losers := Losers(grouped[i], keeper);
      forall c
        ensures multiset(active + losers)[c] == PartialCount(cs, target, keepers.Keys + {i}, {}, c)
      {
        DecideStep(cs, target, keepers.Keys, i, c);
        assert multiset(active + losers)[c] == multiset(active)[c] + multiset(losers)[c];
      }
      assert keepers[i := keeper].Keys == keepers.Keys + {i};
      keepers, active, todo := keepers[i := keeper], active + losers, todo - {i};
    }
  }

  lemma UndecidedCount(cs: seq<Summary>, target: int, unindexed: seq<Summary>, c: Summary)
    requires unindexed == if target == 0 then UnindexedOf(cs) else []
    ensures multiset(unindexed)[c] == PartialCount(cs, target, {}, {}, c)
  {
    hide IsRunningState, IsStaleState, ReplicaIndex;
    FilterCount(cs, (c: Summary) => c.Unindexed(), c);
  }

  lemma DecideStep(cs: seq<Summary>, target: int, decided: set<int>, i: int, c: Summary)
    requires i !in decided && Group(cs, i) != []
    ensures PartialCount(cs, target, decided + {i}, {}, c)
            == PartialCount(cs, target, decided, {}, c)
               + if c.id != Keeper(Group(cs, i)).id then multiset(Group(cs, i))[c] else 0
  {
    hide IsRunningState, IsStaleState, ReplicaIndex;
    GroupCount(cs, i, c);
  }

  lemma DropStep(cs: seq<Summary>, target: int, decided: set<int>, dropped: set<int>, i: int, c: Summary)
    requires i !in dropped && Group(cs, i) != []
    ensures PartialCount(cs, target, decided, dropped + {i}, c)
            == PartialCount(cs, target, decided, dropped, c) + if c == Keeper(Group(cs, i)) then 1 else 0
  {
    hide IsRunningState, IsStaleState, ReplicaIndex;
    GroupCount(cs, i, Keeper(Group(cs, i)));
  }

  /** Adds the keepers at indices the target no longer covers. */
  method DropExcess(cs: seq<Summary>, target: int, keepers: map<int, Summary>, others: seq<Summary>)
    returns (active: seq<Summary>)
    requires forall i :: i in keepers <==> Group(cs, i) != []
    requires forall i :: i in keepers ==> keepers[i] == Keeper(Group(cs, i))
    requires forall c :: multiset(others)[c] == PartialCount(cs, target, keepers.Keys, {}, c)
    ensures forall c :: multiset(active)[c] == RemovalCount(cs, target, c)
  {
    hide IsRunningState, IsStaleState, ReplicaIndex;
    active := others;
    var excess := set i | i in keepers && i >= target;
    ghost var dropped := {};
    while excess != {}
      invariant excess !! dropped && excess + dropped == set i | i in keepers && i >= target
      invariant forall c :: multiset(active)[c] == PartialCount(cs, target, keepers.Keys, dropped, c)
    {
      var i := NextKey(excess);
      forall c
        ensures multiset(active + [keepers[i]])[c] == PartialCount(cs, target, keepers.Keys, dropped + {i}, c)
      {
        DropStep(cs, target, keepers.Keys, dropped, i, c);
        assert multiset(active + [keepers[i]])[c] == multiset(active)[c] + multiset([keepers[i]])[c];
      }
      excess, dropped, active := excess - {i}, dropped + {i}, active + [keepers[i]];
    }
    forall c
      ensures multiset(active)[c] == RemovalCount(cs, target, c)
    {
      if c.Index().Some? && Group(cs, c.Index().value) != [] {
        assert c.Index().value in keepers;
      }
    }
  }

  method MissingIndices(keepers: map<int, Summary>, target: int) returns (missing: seq<nat>)
    ensures Ascending(missing)
    ensures forall i :: i in missing <==> 0 <= i < target && i !in keepers
  {
    missing := [];
    var i := 0;
    while i < target
      invariant 0 <= i <= if target >= 0 then target else 0
      invariant Ascending(missing) && forall a | 0 <= a < |missing| :: missing[a] < i
      invariant forall k :: k in missing <==> 0 <= k < i && k !in keepers
    {
      if i !in keepers {
        missing := missing + [i];
      }
      i := i + 1;
    }
  }

  /** The planner. Go visits the groups in map order; here every order is allowed. */
  method BuildReplicaScalePlan(cs: seq<Summary>, target: int) returns (plan: Plan)
    ensures IsPlan(cs, target, plan)
  {
    hide IsRunningState, IsStaleState, ReplicaIndex;
    var stale, unindexed, grouped := GroupByIndex(cs, target);
    var keepers, others := PickKeepers(cs, target, grouped, unindexed);
    var missing := MissingIndices(keepers, target);
    var active := DropExcess(cs, target, keepers, others);
    plan := Plan(stale, active, missing);
  }
}
