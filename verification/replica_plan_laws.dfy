/** What a replica plan means: nothing lost, nothing order-dependent, empty exactly when settled. */
module ReplicaPlanLaws {
  import opened GoText
  import opened ReplicaNames
  import opened ReplicaPlan

  ghost predicate DistinctIds(cs: seq<Summary>) {
    forall a, b | 0 <= a < b < |cs| :: cs[a].id != cs[b].id
  }

  lemma DistinctCount(cs: seq<Summary>, c: Summary, d: Summary)
    requires DistinctIds(cs) && c in cs && d in cs && c.id == d.id
    ensures c == d && multiset(cs)[c] == 1
  {
    var a :| 0 <= a < |cs| && cs[a] == c;
    var b :| 0 <= b < |cs| && cs[b] == d;
    assert cs == cs[..a] + [cs[a]] + cs[a + 1..];
    assert multiset(cs) == multiset(cs[..a]) + multiset([cs[a]]) + multiset(cs[a + 1..]);
    assert c !in cs[..a] && c !in cs[a + 1..];
  }

  lemma KeeperIsMember(cs: seq<Summary>, i: int)
    requires Group(cs, i) != []
    ensures Keeper(Group(cs, i)) in cs && Keeper(Group(cs, i)).ActiveAt(i)
  {
    hide IsRunningState, IsStaleState, ReplicaIndex, Keeper, Filter;
    GroupCount(cs, i, Keeper(Group(cs, i)));
  }

  /** Survivors of a plan: active, below the target and kept, or active without an index unless the target is 0. */
  ghost predicate Survives(cs: seq<Summary>, target: int, c: Summary) {
    !c.Stale() &&
    match c.Index()
    case None => target != 0
    case Some(i) => i < target && Group(cs, i) != [] && c == Keeper(Group(cs, i))
  }

  ghost function Survivors(cs: seq<Summary>, target: int): seq<Summary> {
    Filter(cs, (c: Summary) => Survives(cs, target, c))
  }

  lemma RemovalOrSurvival(cs: seq<Summary>, target: int, c: Summary)
    requires DistinctIds(cs)
    ensures multiset(cs)[c] == (if c.Stale() then multiset(cs)[c] else 0) + RemovalCount(cs, target, c)
                               + if Survives(cs, target, c) then multiset(cs)[c] else 0
  {
    hide IsRunningState, IsStaleState, ReplicaIndex, Keeper, Filter;
    if !c.Stale() && c.Index().Some? {
      var i := c.Index().value;
      GroupCount(cs, i, c);
      if Group(cs, i) != [] {
        var k := Keeper(Group(cs, i));
        KeeperIsMember(cs, i);
        DistinctCount(cs, k, k);
        if c in cs && c.id == k.id {
          DistinctCount(cs, c, k);
        }
      } else {
        assert c !in multiset(Group(cs, i));
      }
    }
  }

  /** Every listed container is removed as stale, removed as active, or survives: exactly one of the three. */
  lemma PlanConserves(cs: seq<Summary>, target: int, plan: Plan)
    requires IsPlan(cs, target, plan) && DistinctIds(cs)
    ensures multiset(plan.stale) + multiset(plan.active) + multiset(Survivors(cs, target)) == multiset(cs)
  {
    hide IsRunningState, IsStaleState, ReplicaIndex, Keeper, Filter;
    forall c
      ensures (multiset(plan.stale) + multiset(plan.active) + multiset(Survivors(cs, target)))[c] == multiset(cs)[c]
    {
      FilterCount(cs, (c: Summary) => c.Stale(), c);
      FilterCount(cs, (c: Summary) => Survives(cs, target, c), c);
      RemovalOrSurvival(cs, target, c);
    }
  }

  /** No two different active containers at one index are equally ranked. */
  ghost predicate NoTies(cs: seq<Summary>) {
    forall c, d |
      c in cs && d in cs && c != d && !c.Stale() && !d.Stale() && c.Index().Some? && c.Index() == d.Index() ::
      Outranks(c.Standing(), d.Standing()) || Outranks(d.Standing(), c.Standing())
  }

  lemma KeeperIsTop(group: seq<Summary>, c: Summary)
    requires c in group
    ensures !Outranks(c.Standing(), Keeper(group).Standing())
  {
    hide IsRunningState, Outranks, FirstTopIndex, Keeper;
    var k := Keeper(group);
    var ranks := Ranks(group);
    var p: nat :| FirstTop(ranks, p) && group[p] == k;
    var q :| 0 <= q < |group| && group[q] == c;
    assert ranks[q] == c.Standing();
    assert ranks[p] == k.Standing();
  }

  /** The keeper of an index is ranked at least as high as every active container there. */
  lemma KeeperOutranks(cs: seq<Summary>, i: int, c: Summary)
    requires c in cs && c.ActiveAt(i)
    ensures Group(cs, i) != [] && !Outranks(c.Standing(), Keeper(Group(cs, i)).Standing())
    ensures var k := Keeper(Group(cs, i));
            (c.Running() ==> k.Running()) && (c.Running() == k.Running() ==> c.created <= k.created)
  {
    hide IsRunningState, IsStaleState, ReplicaIndex, Keeper, Filter, Group;
    GroupCount(cs, i, c);
    KeeperIsTop(Group(cs, i), c);
  }

  lemma KeeperIgnoresOrder(as_: seq<Summary>, bs: seq<Summary>, i: int)
    requires multiset(as_) == multiset(bs) && NoTies(as_)
    ensures Group(as_, i) == [] <==> Group(bs, i) == []
    ensures Group(as_, i) != [] ==> Keeper(Group(as_, i)) == Keeper(Group(bs, i))
  {
    hide IsRunningState, IsStaleState, ReplicaIndex, Keeper, Filter;
    forall c
      ensures c in as_ <==> c in bs
    {
      assert c in as_ <==> c in multiset(as_);
      assert c in bs <==> c in multiset(bs);
    }
    if Group(as_, i) != [] {
      KeeperIsMember(as_, i);
      KeeperOutranks(bs, i, Keeper(Group(as_, i)));
    }
    if Group(bs, i) != [] {
      KeeperIsMember(bs, i);
      KeeperOutranks(as_, i, Keeper(Group(bs, i)));
    }
  }

  lemma MissingUnique(xs: seq<nat>, ys: seq<nat>)
    requires Ascending(xs) && Ascending(ys) && forall i: nat :: i in xs <==> i in ys
    ensures xs == ys
  {
    assert xs != [] ==> xs[0] in xs;
    assert ys != [] ==> ys[0] in ys;
    if xs != [] && ys != [] {
      assert xs[0] == ys[0];
      forall i: nat
        ensures i in xs[1..] <==> i in ys[1..]
      {
        assert i in xs[1..] <==> i in xs && i > xs[0];
        assert i in ys[1..] <==> i in ys && i > ys[0];
      }
      MissingUnique(xs[1..], ys[1..]);
    }
  }

  /** Without ties the plan does not depend on the order in which Docker lists the containers. */
  lemma PlanIgnoresOrder(as_: seq<Summary>, bs: seq<Summary>, target: int, p: Plan, q: Plan)
    requires multiset(as_) == multiset(bs) && NoTies(as_)
    requires IsPlan(as_, target, p) && IsPlan(bs, target, q)
    ensures multiset(p.stale) == multiset(q.stale)
    ensures multiset(p.active) == multiset(q.active)
    ensures p.missing == q.missing
  {
    hide IsRunningState, IsStaleState, ReplicaIndex, Keeper, Filter;
    forall c
      ensures multiset(p.stale)[c] == multiset(q.stale)[c]
      ensures multiset(p.active)[c] == multiset(q.active)[c]
    {
      FilterCount(as_, (c: Summary) => c.Stale(), c);
      FilterCount(bs, (c: Summary) => c.Stale(), c);
      if c.Index().Some? {
        KeeperIgnoresOrder(as_, bs, c.Index().value);
      }
    }
    forall i: nat
      ensures i in p.missing <==> i in q.missing
    {
      KeeperIgnoresOrder(as_, bs, i);
    }
    MissingUnique(p.missing, q.missing);
  }

  /** How many of the first `n` indices have an active container. */
  ghost function FilledBelow(cs: seq<Summary>, n: nat): nat {
    if n == 0 then 0 else FilledBelow(cs, n - 1) + if Group(cs, n - 1) != [] then 1 else 0
  }

  /** Missing and already filled indices add up to the target. */
  lemma MissingPlusFilled(cs: seq<Summary>, target: nat, plan: Plan)
    requires IsPlan(cs, target, plan)
    ensures |plan.missing| + FilledBelow(cs, target) == target
  {
    hide IsRunningState, IsStaleState, ReplicaIndex, Keeper, Filter, Group;
    MissingCount(cs, target, plan.missing);
  }

  lemma {:induction false} MissingCount(cs: seq<Summary>, n: nat, missing: seq<nat>)
    requires Ascending(missing) && forall i :: i in missing <==> 0 <= i < n && Group(cs, i) == []
    ensures |missing| + FilledBelow(cs, n) == n
  {
    hide IsRunningState, IsStaleState, ReplicaIndex, Keeper, Filter, Group;
    assert missing != [] ==> missing[|missing| - 1] in missing;
    if n > 0 {
      if Group(cs, n - 1) == [] {
        assert n - 1 in missing && missing[|missing| - 1] == n - 1;
        var init := missing[..|missing| - 1];
        assert missing == init + [n - 1];
        MissingCount(cs, n - 1, init);
      } else {
        MissingCount(cs, n - 1, missing);
      }
    }
  }

  /** A listing that needs no work: all active, one container per index below the target, none at or above it,
      and none without an index when the target is 0. */
  ghost predicate Settled(cs: seq<Summary>, target: int) {
    (forall c | c in cs :: !c.Stale() && (c.Index().None? ==> target != 0))
    && (forall c, i | c in cs && c.ActiveAt(i) :: i < target)
    && (forall c, d, i | c in cs && d in cs && c.ActiveAt(i) && d.ActiveAt(i) :: c == d)
    && (forall i | 0 <= i < target :: Group(cs, i) != [])
  }

  /** Planning finds nothing to do exactly on a settled listing. */
  lemma EmptyPlanIffSettled(cs: seq<Summary>, target: int, plan: Plan)
    requires IsPlan(cs, target, plan) && DistinctIds(cs)
    ensures plan == Plan([], [], []) <==> Settled(cs, target)
  {
    hide IsRunningState, IsStaleState, ReplicaIndex, Keeper, Filter;
    forall c | c in cs
      ensures c.Stale() <==> c in plan.stale
      ensures RemovalCount(cs, target, c) > 0 <==> c in plan.active
    {
      FilterCount(cs, (c: Summary) => c.Stale(), c);
      assert c in plan.stale <==> c in multiset(plan.stale);
      assert c in plan.active <==> c in multiset(plan.active);
      assert c in multiset(cs);
    }
    if plan == Plan([], [], []) {
      EmptyPlanSettles(cs, target, plan);
    }
    if Settled(cs, target) {
      SettledNeedsNothing(cs, target, plan);
    }
  }

  lemma EmptyPlanSettles(cs: seq<Summary>, target: int, plan: Plan)
    requires IsPlan(cs, target, plan) && DistinctIds(cs) && plan == Plan([], [], [])
    ensures Settled(cs, target)
  {
    hide IsRunningState, IsStaleState, ReplicaIndex, Keeper, Filter;
    forall c | c in cs
      ensures Survives(cs, target, c)
    {
      assert multiset(plan.active)[c] == 0;
      FilterCount(cs, (c: Summary) => c.Stale(), c);
      RemovalOrSurvival(cs, target, c);
      assert multiset(cs)[c] > 0;
    }
    forall i | 0 <= i < target
      ensures Group(cs, i) != []
    {
      assert i !in plan.missing;
    }
  }

  lemma HeadIn(xs: seq<nat>)
    ensures xs == [] || xs[0] in xs
  {
  }

  lemma SettledNeedsNothing(cs: seq<Summary>, target: int, plan: Plan)
    requires IsPlan(cs, target, plan) && DistinctIds(cs) && Settled(cs, target)
    ensures plan == Plan([], [], [])
  {
    hide IsRunningState, IsStaleState, ReplicaIndex, Keeper, Filter;
    assert plan.stale != [] ==> plan.stale[0] in plan.stale;
    assert plan.active != [] ==> plan.active[0] in plan.active;
    HeadIn(plan.missing);
    forall c: Summary
      ensures c !in plan.stale && c !in plan.active
    {
      FilterCount(cs, (c: Summary) => c.Stale(), c);
      assert c in plan.stale <==> c in multiset(plan.stale);
      assert c in plan.active <==> c in multiset(plan.active);
      assert c in cs <==> c in multiset(cs);
      if c.Index().Some? && Group(cs, c.Index().value) != [] {
        KeeperIsMember(cs, c.Index().value);
      }
      RemovalOrSurvival(cs, target, c);
    }
  }
}
