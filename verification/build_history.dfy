/** The build history as a plain sequence, newest first: what the tracker must agree with on every run. */
module BuildHistory {
  import opened GoText

  datatype BuildEntry = BuildEntry(
    id: string, name: string, image: string, sourceType: string, runtime: string, gitURL: string, gitRef: string,
    sourcePath: string, zipName: string, status: string, startedAt: Time, finishedAt: Time, durationMs: int,
    deployed: bool, updated: bool, output: string, truncated: bool, error: string)

  datatype BuildUpdate = BuildUpdate(
    name: Option<string>, image: Option<string>, sourceType: Option<string>, runtime: Option<string>,
    gitURL: Option<string>, gitRef: Option<string>, sourcePath: Option<string>, zipName: Option<string>,
    status: Option<string>, finishedAt: Option<Time>, durationMs: Option<int>, deployed: Option<bool>,
    updated: Option<bool>, output: Option<string>, truncated: Option<bool>, error: Option<string>)

  function Or<T>(change: Option<T>, current: T): T {
    if change.Some? then change.value else current
  }

  /** Overwrites the fields the update sets. The id and the start time cannot be changed. */
  function Patched(e: BuildEntry, u: BuildUpdate): BuildEntry {
    e.(name := Or(u.name, e.name), image := Or(u.image, e.image), sourceType := Or(u.sourceType, e.sourceType),
       runtime := Or(u.runtime, e.runtime), gitURL := Or(u.gitURL, e.gitURL), gitRef := Or(u.gitRef, e.gitRef),
       sourcePath := Or(u.sourcePath, e.sourcePath), zipName := Or(u.zipName, e.zipName),
       status := Or(u.status, e.status), finishedAt := Or(u.finishedAt, e.finishedAt),
       durationMs := Or(u.durationMs, e.durationMs), deployed := Or(u.deployed, e.deployed),
       updated := Or(u.updated, e.updated), output := Or(u.output, e.output),
       truncated := Or(u.truncated, e.truncated), error := Or(u.error, e.error))
  }

  /** `now` is the value a change leaves in a field that was `before`: the given one if the change gives one. */
  predicate Takes<T(==)>(now: T, change: Option<T>, before: T) {
    (change.Some? ==> now == change.value) && (change.None? ==> now == before)
  }

  /** `e` is `before` with exactly the fields changed that the update sets; the id and the start time never are. */
  predicate IsUpdateOf(e: BuildEntry, before: BuildEntry, u: BuildUpdate) {
    e.id == before.id && e.startedAt == before.startedAt
    && Takes(e.name, u.name, before.name) && Takes(e.image, u.image, before.image)
    && Takes(e.sourceType, u.sourceType, before.sourceType) && Takes(e.runtime, u.runtime, before.runtime)
    && Takes(e.gitURL, u.gitURL, before.gitURL) && Takes(e.gitRef, u.gitRef, before.gitRef)
    && Takes(e.sourcePath, u.sourcePath, before.sourcePath) && Takes(e.zipName, u.zipName, before.zipName)
    && Takes(e.status, u.status, before.status) && Takes(e.finishedAt, u.finishedAt, before.finishedAt)
    && Takes(e.durationMs, u.durationMs, before.durationMs) && Takes(e.deployed, u.deployed, before.deployed)
    && Takes(e.updated, u.updated, before.updated) && Takes(e.output, u.output, before.output)
    && Takes(e.truncated, u.truncated, before.truncated) && Takes(e.error, u.error, before.error)
  }

  lemma PatchedIsUpdate(before: BuildEntry, u: BuildUpdate)
    ensures IsUpdateOf(Patched(before, u), before, u)
  {
  }

  /** An entry's age counts from its finish, or from its start while it is running. */
  function Stamp(e: BuildEntry): Time {
    if e.finishedAt == 0 then e.startedAt else e.finishedAt
  }

  /** The entries stamped after `cutoff`, in order. */
  function After(es: seq<BuildEntry>, cutoff: Time): (r: seq<BuildEntry>)
    ensures |r| <= |es|
    ensures forall e :: e in r <==> e in es && Stamp(e) > cutoff
  {
    if es == [] then []
    else
      var rest := After(es[..|es| - 1], cutoff);
      if Stamp(es[|es| - 1]) > cutoff then rest + [es[|es| - 1]] else rest
  }

  /** What is left at time `now` of a history kept for `retention` (forever if it is not positive). */
  function Fresh(es: seq<BuildEntry>, retention: int, now: Time): seq<BuildEntry> {
    if retention <= 0 then es else After(es, now - retention)
  }

  /** Pruning is a filter: it keeps the entries that finished, or if they are running started, within the retention. */
  lemma FreshAlone(e: BuildEntry, retention: int, now: Time)
    ensures Fresh([e], retention, now) ==
            if retention <= 0 || (if e.finishedAt != 0 then e.finishedAt else e.startedAt) > now - retention
            then [e] else []
  {
    assert After([], now - retention) == [];
    assert [e][..0] == [];
  }

  lemma FreshConcat(a: seq<BuildEntry>, b: seq<BuildEntry>, retention: int, now: Time)
    ensures Fresh(a + b, retention, now) == Fresh(a, retention, now) + Fresh(b, retention, now)
  {
    hide After;
    AfterConcat(a, b, now - retention);
  }

  function Take<T>(limit: nat, s: seq<T>): seq<T> {
    if |s| <= limit then s else s[..limit]
  }

  /** The last position of an id, if it occurs: repeated ids resolve to the oldest entry. */
  function LastOf(es: seq<BuildEntry>, id: string): (r: Option<nat>)
    ensures r.Some? ==> r.value < |es| && es[r.value].id == id
    ensures r.Some? ==> forall k | r.value < k < |es| :: es[k].id != id
    ensures r.None? ==> forall k | 0 <= k < |es| :: es[k].id != id
  {
    if es == [] then None
    else if es[|es| - 1].id == id then Some(|es| - 1)
    else LastOf(es[..|es| - 1], id)
  }

  function Added(es: seq<BuildEntry>, e: BuildEntry, limit: nat, retention: int, now: Time): seq<BuildEntry> {
    Take(limit, [e] + Fresh(es, retention, now))
  }

  /** An update of an id that is not there changes nothing, not even by pruning. */
  function Updated(es: seq<BuildEntry>, id: string, u: BuildUpdate, retention: int, now: Time): seq<BuildEntry> {
    match LastOf(es, id)
    case None => es
    case Some(k) => Fresh(es[k := Patched(es[k], u)], retention, now)
  }

  function Found(es: seq<BuildEntry>, id: string): Option<BuildEntry> {
    match LastOf(es, id)
    case None => None
    case Some(k) => Some(es[k])
  }

  ghost predicate DistinctBuilds(es: seq<BuildEntry>) {
    forall j, k | 0 <= j < k < |es| :: es[j].id != es[k].id
  }

  /** With distinct ids, the entry at position `k` is what its id finds, as long as it is live. */
  lemma FoundIfLive(es: seq<BuildEntry>, k: nat, retention: int, now: Time)
    requires DistinctBuilds(es) && k < |es|
    requires retention <= 0 || (if es[k].finishedAt != 0 then es[k].finishedAt else es[k].startedAt) > now - retention
    ensures Found(Fresh(es, retention, now), es[k].id) == Some(es[k])
  {
    hide After;
    var f := Fresh(es, retention, now);
    assert es[k] in f;
    assert LastOf(f, es[k].id).Some?;
    var j := LastOf(f, es[k].id).value;
    assert f[j] in f && f[j] in es;
    var i :| 0 <= i < |es| && es[i] == f[j];
    assert i == k;
  }

  /** What an update of an id that is there does: the last entry with the id becomes an update of itself, the rest is
      pruned around it, and if ids are distinct and that entry is live it is what the update answers. */
  ghost predicate UpdateShows(before: seq<BuildEntry>, id: string, u: BuildUpdate, retention: int, now: Time,
                              after: seq<BuildEntry>, result: Option<BuildEntry>)
  {
    LastOf(before, id).Some? ==>
      var k := LastOf(before, id).value;
      exists e: BuildEntry ::
        IsUpdateOf(e, before[k], u) && after == Fresh(before[k := e], retention, now)
        && (DistinctBuilds(before)
            && (retention <= 0 || (if e.finishedAt != 0 then e.finishedAt else e.startedAt) > now - retention) ==>
              result == Some(e))
  }

  lemma UpdateShown(es: seq<BuildEntry>, id: string, u: BuildUpdate, retention: int, now: Time)
    ensures var after := Updated(es, id, u, retention, now);
            UpdateShows(es, id, u, retention, now, after, if LastOf(es, id).None? then None else Found(after, id))
  {
    hide After, Patched, IsUpdateOf, Fresh;
    if LastOf(es, id).Some? {
      var k := LastOf(es, id).value;
      var e := Patched(es[k], u);
      PatchedIsUpdate(es[k], u);
      var patched := es[k := e];
      assert e.id == es[k].id by { SameId(e, es[k], u); }
      if DistinctBuilds(es)
         && (retention <= 0 || (if e.finishedAt != 0 then e.finishedAt else e.startedAt) > now - retention) {
        FoundIfLive(patched, k, retention, now);
      }
    }
  }

  lemma SameId(e: BuildEntry, before: BuildEntry, u: BuildUpdate)
    requires IsUpdateOf(e, before, u)
    ensures e.id == before.id
  {
  }

  lemma {:induction false} AfterConcat(a: seq<BuildEntry>, b: seq<BuildEntry>, cutoff: Time)
    ensures After(a + b, cutoff) == After(a, cutoff) + After(b, cutoff)
  {
    if b == [] {
      assert a + b == a;
    } else {
      assert (a + b)[..|a + b| - 1] == a + b[..|b| - 1];
      AfterConcat(a, b[..|b| - 1], cutoff);
    }
  }

  /** Pruning early is never noticed: pruning at t1 and then at t2 is pruning once, at t2. */
  lemma {:induction false} PruneTwice(es: seq<BuildEntry>, retention: int, t1: Time, t2: Time)
    requires t1 <= t2
    ensures Fresh(Fresh(es, retention, t1), retention, t2) == Fresh(es, retention, t2)
  {
    hide Fresh;
    if es == [] {
      FreshNothing(retention, t1);
      FreshNothing(retention, t2);
    } else {
      var init, last := es[..|es| - 1], es[|es| - 1];
      PruneTwice(init, retention, t1, t2);
      assert es == init + [last];
      FreshConcat(init, [last], retention, t1);
      FreshConcat(init, [last], retention, t2);
      FreshConcat(Fresh(init, retention, t1), Fresh([last], retention, t1), retention, t2);
      FreshAlone(last, retention, t1);
      FreshAlone(last, retention, t2);
      FreshNothing(retention, t2);
    }
  }

  lemma FreshNothing(retention: int, now: Time)
    ensures Fresh([], retention, now) == []
  {
  }

  datatype Op =
    | Add(entry: BuildEntry)
    | Update(id: string, change: BuildUpdate)
    | List
    | Get(id: string)
    | Clear

  function Step(es: seq<BuildEntry>, op: Op, limit: nat, retention: int, now: Time): seq<BuildEntry> {
    match op
    case Add(e) => Added(es, e, limit, retention, now)
    case Update(id, u) => Updated(es, id, u, retention, now)
    case List => Fresh(es, retention, now)
    case Get(id) => if LastOf(es, id).None? then es else Fresh(es, retention, now)
    case Clear => []
  }

  /** The history after a run of timed operations. */
  function Run(es: seq<BuildEntry>, ops: seq<(Op, Time)>, limit: nat, retention: int): seq<BuildEntry> {
    if ops == [] then es
    else Step(Run(es, ops[..|ops| - 1], limit, retention), ops[|ops| - 1].0, limit, retention, ops[|ops| - 1].1)
  }

  lemma {:induction false} RunIsBounded(es: seq<BuildEntry>, ops: seq<(Op, Time)>, limit: nat, retention: int)
    requires |es| <= limit
    ensures |Run(es, ops, limit, retention)| <= limit
  {
    if ops != [] {
      RunIsBounded(es, ops[..|ops| - 1], limit, retention);
    }
  }

  /** Operations that neither clear the history nor name the entry. */
  predicate LeavesAlone(op: Op, id: string) {
    !op.Clear? && (op.Update? ==> op.id != id) && (op.Add? ==> op.entry.id != id)
  }

  function CountAdds(ops: seq<(Op, Time)>): nat {
    if ops == [] then 0 else CountAdds(ops[..|ops| - 1]) + if ops[|ops| - 1].0.Add? then 1 else 0
  }

  predicate IsLive(e: BuildEntry, retention: int, now: Time) {
    retention <= 0 || Stamp(e) > now - retention
  }

  /** Every entry with `e`'s id is `e`, and if `e` is present it is so within the first `depth + 1` entries. */
  ghost predicate HeldWithin(es: seq<BuildEntry>, e: BuildEntry, depth: nat) {
    (forall k | 0 <= k < |es| && es[k].id == e.id :: es[k] == e)
    && exists k | 0 <= k < |es| :: k <= depth && es[k] == e
  }

  lemma PruneHolds(es: seq<BuildEntry>, e: BuildEntry, depth: nat, retention: int, now: Time)
    requires HeldWithin(es, e, depth) && IsLive(e, retention, now)
    ensures HeldWithin(Fresh(es, retention, now), e, depth)
  {
    if retention > 0 {
      var k :| 0 <= k < |es| && k <= depth && es[k] == e;
      KeptAt(es, k, now - retention);
      var r := After(es, now - retention);
      forall j | 0 <= j < |r| && r[j].id == e.id
        ensures r[j] == e
      {
        assert r[j] in r;
      }
    }
  }

  /** Pruning moves an entry it keeps towards the front, never back. */
  lemma {:induction false} KeptAt(es: seq<BuildEntry>, k: nat, cutoff: Time)
    requires k < |es| && Stamp(es[k]) > cutoff
    ensures exists j | 0 <= j < |After(es, cutoff)| :: j <= k && After(es, cutoff)[j] == es[k]
  {
    var init := es[..|es| - 1];
    if k == |es| - 1 {
      assert After(es, cutoff)[|After(init, cutoff)|] == es[k];
    } else {
      KeptAt(init, k, cutoff);
      var j :| 0 <= j < |After(init, cutoff)| && j <= k && After(init, cutoff)[j] == init[k];
      assert After(es, cutoff)[j] == es[k];
    }
  }

  lemma StepHolds(es: seq<BuildEntry>, e: BuildEntry, depth: nat, op: Op, limit: nat,
                                     retention: int, now: Time)
    requires HeldWithin(es, e, depth) && IsLive(e, retention, now) && LeavesAlone(op, e.id)
    requires op.Add? ==> depth + 1 < limit
    ensures HeldWithin(Step(es, op, limit, retention, now), e, if op.Add? then depth + 1 else depth)
  {
    hide After, Fresh, IsLive;
    match op {
      case Add(x) =>
        PruneHolds(es, e, depth, retention, now);
        var f := Fresh(es, retention, now);
        var k :| 0 <= k < |f| && k <= depth && f[k] == e;
        assert Added(es, x, limit, retention, now)[k + 1] == e;
      case Update(id, u) =>
        match LastOf(es, id) {
          case None =>
          case Some(j) =>
            assert HeldWithin(es[j := Patched(es[j], u)], e, depth) by {
              var k :| 0 <= k < |es| && k <= depth && es[k] == e;
              assert es[j := Patched(es[j], u)][k] == e;
            }
            PruneHolds(es[j := Patched(es[j], u)], e, depth, retention, now);
        }
      case List => PruneHolds(es, e, depth, retention, now);
      case Get(_) => PruneHolds(es, e, depth, retention, now);
    }
  }

  lemma {:induction false} RunHolds(es: seq<BuildEntry>, e: BuildEntry, ops: seq<(Op, Time)>, limit: nat,
                                    retention: int)
    requires HeldWithin(es, e, 0) && CountAdds(ops) < limit
    requires forall k | 0 <= k < |ops| :: LeavesAlone(ops[k].0, e.id) && IsLive(e, retention, ops[k].1)
    ensures HeldWithin(Run(es, ops, limit, retention), e, CountAdds(ops))
  {
    if ops != [] {
      var init, last := ops[..|ops| - 1], ops[|ops| - 1];
      RunHolds(es, e, init, limit, retention);
      StepHolds(Run(es, init, limit, retention), e, CountAdds(init), last.0, limit, retention, last.1);
    }
  }

  ghost predicate OnlyAs(es: seq<BuildEntry>, e: BuildEntry) {
    forall x | x in es && x.id == e.id :: x == e
  }

  lemma {:induction false} RunKeepsOnly(es: seq<BuildEntry>, e: BuildEntry, ops: seq<(Op, Time)>, limit: nat,
                                        retention: int)
    requires OnlyAs(es, e)
    requires forall k | 0 <= k < |ops| :: LeavesAlone(ops[k].0, e.id)
    ensures OnlyAs(Run(es, ops, limit, retention), e)
  {
    if ops != [] {
      var init, last := ops[..|ops| - 1], ops[|ops| - 1];
      RunKeepsOnly(es, e, init, limit, retention);
      assert LeavesAlone(last.0, e.id);
      var h := Run(es, init, limit, retention);
      if last.0.Update? && LastOf(h, last.0.id).Some? {
        var j := LastOf(h, last.0.id).value;
        assert forall x | x in h[j := Patched(h[j], last.0.change)] :: x in h || x.id == last.0.id;
      }
    }
  }

  /** A build stays retrievable at least until `limit` newer ones have arrived, as long as its retention lasts: after
      fewer additions it is found at time `now` exactly when it is live then. */
  lemma {:induction false} RetainedUntilExpired(es: seq<BuildEntry>, e: BuildEntry, t0: Time, ops: seq<(Op, Time)>,
                                                limit: nat,
                             retention: int, now: Time)
    requires LastOf(es, e.id).None? && CountAdds(ops) < limit
    requires forall k | 0 <= k < |ops| :: LeavesAlone(ops[k].0, e.id) && ops[k].1 <= now
    ensures var h := Run(Added(es, e, limit, retention, t0), ops, limit, retention);
            Found(Fresh(h, retention, now), e.id) == if IsLive(e, retention, now) then Some(e) else None
  {
    var start := Added(es, e, limit, retention, t0);
    var h := Run(start, ops, limit, retention);
    assert start[0] == e;
    assert forall x | x in es :: x.id != e.id;
    assert OnlyAs(start, e) && HeldWithin(start, e, 0);
    hide Added, Run, Step;
    RunKeepsOnly(start, e, ops, limit, retention);
    var f := Fresh(h, retention, now);
    if IsLive(e, retention, now) {
      RunHolds(start, e, ops, limit, retention);
      PruneHolds(h, e, CountAdds(ops), retention, now);
    } else {
      forall k | 0 <= k < |f|
        ensures f[k].id != e.id
      {
        assert f[k] in f;
      }
    }
  }

  /** Started and, if it is over, finished no earlier than the time `e`'s age counts from. */
  predicate Newer(x: BuildEntry, e: BuildEntry) {
    x.startedAt >= Stamp(e) && (x.finishedAt == 0 || x.finishedAt >= Stamp(e))
  }

  /** The operation adds no entry, and finishes none, with a time before `e`'s. */
  predicate NotBackdated(op: Op, e: BuildEntry) {
    match op
    case Add(x) => Newer(x, e)
    case Update(_, u) => u.finishedAt.Some? && u.finishedAt.value != 0 ==> u.finishedAt.value >= Stamp(e)
    case _ => true
  }

  /** `e` is gone, or it sits behind exactly `n` entries, all newer. */
  ghost predicate GoneOrBehind(es: seq<BuildEntry>, e: BuildEntry, n: nat) {
    (forall k | 0 <= k < |es| :: es[k].id != e.id)
    || (n < |es| && es[n] == e && forall k | 0 <= k < n :: Newer(es[k], e) && es[k].id != e.id)
  }

  lemma {:induction false} AllKept(es: seq<BuildEntry>, cutoff: Time)
    requires forall k | 0 <= k < |es| :: Stamp(es[k]) > cutoff
    ensures After(es, cutoff) == es
  {
    hide Stamp;
    if es != [] {
      AllKept(es[..|es| - 1], cutoff);
    }
  }

  /** Pruning keeps a fresh beginning as it is. */
  lemma PruneKeepsFront(es: seq<BuildEntry>, n: nat, cutoff: Time)
    requires n <= |es| && forall k | 0 <= k < n :: Stamp(es[k]) > cutoff
    ensures es[..n] <= After(es, cutoff)
  {
    hide After;
    AfterConcat(es[..n], es[n..], cutoff);
    assert es[..n] + es[n..] == es;
    AllKept(es[..n], cutoff);
  }

  lemma PruneGoneOrBehind(es: seq<BuildEntry>, e: BuildEntry, n: nat, retention: int, now: Time)
    requires GoneOrBehind(es, e, n) && OnlyAs(es, e)
    ensures GoneOrBehind(Fresh(es, retention, now), e, n)
  {
    hide After, Newer;
    var f := Fresh(es, retention, now);
    if retention > 0 {
      if IsLive(e, retention, now) && exists k :: 0 <= k < |es| && es[k].id == e.id {
        FrontAndItself(es, e, n, now - retention);
      } else {
        forall k | 0 <= k < |f|
          ensures f[k].id != e.id
        {
          assert f[k] in f && f[k] in es;
        }
      }
    }
  }

  lemma FrontAndItself(es: seq<BuildEntry>, e: BuildEntry, n: nat, cutoff: Time)
    requires n < |es| && es[n] == e && Stamp(e) > cutoff
    requires forall k | 0 <= k < n :: Newer(es[k], e) && es[k].id != e.id
    ensures GoneOrBehind(After(es, cutoff), e, n)
  {
    var r := After(es, cutoff);
    PruneKeepsFront(es, n + 1, cutoff);
    assert es[..n + 1][n] == e;
    assert forall k | 0 <= k < n :: r[k] == es[..n + 1][k] == es[k];
  }

  lemma AddGoneOrBehind(f: seq<BuildEntry>, e: BuildEntry, n: nat, x: BuildEntry, limit: nat)
    requires GoneOrBehind(f, e, n) && Newer(x, e) && x.id != e.id
    ensures GoneOrBehind(Take(limit, [x] + f), e, n + 1)
  {
    var grown := [x] + f;
    assert forall k | 0 < k < |grown| :: grown[k] == f[k - 1];
    if n < |f| && f[n] == e {
      assert grown[n + 1] == e;
    }
  }

  lemma UpdateGoneOrBehind(es: seq<BuildEntry>, e: BuildEntry, n: nat, j: nat, u: BuildUpdate)
    requires GoneOrBehind(es, e, n) && OnlyAs(es, e) && j < |es| && es[j].id != e.id
    requires u.finishedAt.Some? && u.finishedAt.value != 0 ==> u.finishedAt.value >= Stamp(e)
    ensures var patched := es[j := Patched(es[j], u)];
            GoneOrBehind(patched, e, n) && OnlyAs(patched, e)
  {
  }

  lemma StepGoneOrBehind(es: seq<BuildEntry>, e: BuildEntry, n: nat, op: Op, limit: nat,
                                            retention: int, now: Time)
    requires GoneOrBehind(es, e, n) && OnlyAs(es, e) && LeavesAlone(op, e.id) && NotBackdated(op, e)
    ensures GoneOrBehind(Step(es, op, limit, retention, now), e, if op.Add? then n + 1 else n)
  {
    hide GoneOrBehind, Newer, Patched, OnlyAs, Take, Fresh;
    PruneGoneOrBehind(es, e, n, retention, now);
    match op {
      case Add(x) => AddGoneOrBehind(Fresh(es, retention, now), e, n, x, limit);
      case Update(id, u) =>
        if LastOf(es, id).Some? {
          var j := LastOf(es, id).value;
          UpdateGoneOrBehind(es, e, n, j, u);
          PruneGoneOrBehind(es[j := Patched(es[j], u)], e, n, retention, now);
        }
      case _ =>
    }
  }

  lemma {:induction false} RunGoneOrBehind(es: seq<BuildEntry>, e: BuildEntry, ops: seq<(Op, Time)>, limit: nat,
                                           retention: int)
    requires GoneOrBehind(es, e, 0) && OnlyAs(es, e)
    requires forall k | 0 <= k < |ops| :: LeavesAlone(ops[k].0, e.id) && NotBackdated(ops[k].0, e)
    ensures GoneOrBehind(Run(es, ops, limit, retention), e, CountAdds(ops))
  {
    hide GoneOrBehind, OnlyAs, Step, NotBackdated, LeavesAlone;
    if ops != [] {
      var init, last := ops[..|ops| - 1], ops[|ops| - 1];
      RunGoneOrBehind(es, e, init, limit, retention);
      RunKeepsOnly(es, e, init, limit, retention);
      StepGoneOrBehind(Run(es, init, limit, retention), e, CountAdds(init), last.0, limit, retention, last.1);
    }
  }

  /** Without backdating the bound is exact: at time `now` a build is found if and only if its retention lasts and fewer
      than `limit` builds came after it. */
  lemma FoundIffAmongNewest(es: seq<BuildEntry>, e: BuildEntry, t0: Time, ops: seq<(Op, Time)>,
                                               limit: nat, retention: int, now: Time)
    requires LastOf(es, e.id).None? && 0 < limit
    requires forall k | 0 <= k < |ops| :: LeavesAlone(ops[k].0, e.id) && ops[k].1 <= now && NotBackdated(ops[k].0, e)
    ensures var h := Run(Added(es, e, limit, retention, t0), ops, limit, retention);
            Found(Fresh(h, retention, now), e.id) ==
            if IsLive(e, retention, now) && CountAdds(ops) < limit then Some(e) else None
  {
    if CountAdds(ops) < limit {
      RetainedUntilExpired(es, e, t0, ops, limit, retention, now);
    } else {
      var start := Added(es, e, limit, retention, t0);
      assert start[0] == e && forall x | x in es :: x.id != e.id;
      hide Added, Run, Step;
      RunGoneOrBehind(start, e, ops, limit, retention);
      RunIsBounded(start, ops, limit, retention);
      var h := Run(start, ops, limit, retention);
      assert forall k | 0 <= k < |h| :: h[k].id != e.id;
      var f := Fresh(h, retention, now);
      forall k | 0 <= k < |f|
        ensures f[k].id != e.id
      {
        assert f[k] in f && f[k] in h;
      }
    }
  }
}
