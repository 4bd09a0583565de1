/** Round-robin routing: one counter per function, reduced modulo all containers, then modulo the running ones. */
module Routing {
  import opened GoText

  datatype Container = Container(id: string, status: string)

  /** The router's own test: the status text is exactly one of these. Docker's "Up 2 minutes" is neither. */
  predicate IsRunning(c: Container) {
    c.status == "running" || c.status == "Up"
  }

  /** The positions of the running containers, in order. */
  function RunningPositions(cs: seq<Container>): (r: seq<nat>)
    ensures |r| <= |cs|
    ensures forall j | 0 <= j < |r| :: r[j] < |cs| && IsRunning(cs[r[j]])
    ensures forall i, j | 0 <= i < j < |r| :: r[i] < r[j]
    ensures forall p: nat | p < |cs| && IsRunning(cs[p]) :: p in r
  {
    if cs == [] then []
    else
      var rest := RunningPositions(cs[..|cs| - 1]);
      if IsRunning(cs[|cs| - 1]) then rest + [|cs| - 1] else rest
  }

  /** The position a counter value selects. */
  function Pick(counter: nat, cs: seq<Container>): (p: nat)
    requires cs != []
    ensures p < |cs|
  {
    var index := counter % |cs|;
    var running := RunningPositions(cs);
    if running == [] then index else running[index % |running|]
  }

  lemma OneMore(cs: seq<Container>, n: nat)
    requires n < |cs|
    ensures RunningPositions(cs[..n + 1]) == RunningPositions(cs[..n]) + if IsRunning(cs[n]) then [n] else []
  {
    assert cs[..n + 1][..n] == cs[..n];
  }

  method FilterRunning(cs: seq<Container>) returns (running: seq<Container>)
    ensures |running| == |RunningPositions(cs)|
    ensures forall j | 0 <= j < |running| :: running[j] == cs[RunningPositions(cs)[j]]
  {
    hide IsRunning, RunningPositions;
    running := [];
    for n := 0 to |cs|
      invariant |running| == |RunningPositions(cs[..n])|
      invariant forall j | 0 <= j < |running| :: running[j] == cs[RunningPositions(cs[..n])[j]]
    {
      OneMore(cs, n);
      if IsRunning(cs[n]) {
        running := running + [cs[n]];
      }
    }
    assert cs[..|cs|] == cs;
  }

  function CounterOf(counters: map<string, nat>, name: string): nat {
    if name in counters then counters[name] else 0
  }

  class Router {
    /** Unsigned 64-bit counters. */
    var roundRobin: map<string, nat>

    ghost predicate Valid()
      reads this
    {
      forall name | name in roundRobin :: roundRobin[name] < UINT64
    }

    constructor ()
      ensures Valid() && roundRobin == map[]
    {
      roundRobin := map[];
    }

    /** The function's counter, created at 0, goes up by one and wraps around at 2^64. */
    method Advance(name: string) returns (counter: nat)
      requires Valid()
      modifies this
      ensures Valid() && counter == (CounterOf(old(roundRobin), name) + 1) % UINT64
      ensures roundRobin == old(roundRobin)[name := counter]
    {
      if name !in roundRobin {
        roundRobin := roundRobin[name := 0];
      }
      roundRobin := roundRobin[name := (roundRobin[name] + 1) % UINT64];
      counter := roundRobin[name];
    }

    /** Picks by the new value of the function's counter. */
    method SelectContainer(name: string, cs: seq<Container>) returns (chosen: Container)
      requires Valid() && cs != []
      modifies this
      ensures Valid()
      ensures roundRobin == old(roundRobin)[name := (CounterOf(old(roundRobin), name) + 1) % UINT64]
      ensures chosen == cs[Pick(roundRobin[name], cs)]
      ensures (exists c :: c in cs && (c.status == "running" || c.status == "Up")) ==>
                chosen.status == "running" || chosen.status == "Up"
      ensures (forall c | c in cs :: c.status != "running" && c.status != "Up") ==>
                chosen == cs[roundRobin[name] % |cs|]
      ensures (forall c | c in cs :: c.status == "running" || c.status == "Up") ==>
                chosen == cs[roundRobin[name] % |cs|]
    {
      hide RunningPositions, UINT64, IsRunning;
      var counter := Advance(name);
      PicksByCounter(cs, counter);
      var index := counter % |cs|;
      var running := FilterRunning(cs);
      if |running| == 0 {
        return cs[index];
      }
      return running[index % |running|];
    }

    /** An empty listing is an error; otherwise one container is selected. */
    method RouteRequest(name: string, cs: seq<Container>) returns (chosen: Option<Container>)
      requires Valid()
      modifies this
      ensures Valid() && (chosen.None? <==> cs == [])
      ensures cs == [] ==> roundRobin == old(roundRobin)
      ensures cs != [] ==> roundRobin == old(roundRobin)[name := (CounterOf(old(roundRobin), name) + 1) % UINT64]
                           && chosen == Some(cs[Pick(roundRobin[name], cs)])
      ensures (exists c :: c in cs && (c.status == "running" || c.status == "Up")) ==>
                chosen.Some? && (chosen.value.status == "running" || chosen.value.status == "Up")
    {
      if |cs| == 0 {
        return None;
      }
      var c := SelectContainer(name, cs);
      return Some(c);
    }
  }

  /** If a container counts as running, one that does is picked; with none or all of them running, counter value `k`
      picks position k mod n. */
  lemma PicksByCounter(cs: seq<Container>, counter: nat)
    requires cs != []
    ensures (exists c :: c in cs && (c.status == "running" || c.status == "Up")) ==>
              cs[Pick(counter, cs)].status == "running" || cs[Pick(counter, cs)].status == "Up"
    ensures (forall c | c in cs :: c.status != "running" && c.status != "Up") ==> Pick(counter, cs) == counter % |cs|
    ensures (forall c | c in cs :: c.status == "running" || c.status == "Up") ==> Pick(counter, cs) == counter % |cs|
  {
    if forall c | c in cs :: c.status == "running" || c.status == "Up" {
      AllPositions(cs);
      SmallMod(counter % |cs|, |cs|);
    }
  }

  lemma {:induction false} AllPositions(cs: seq<Container>)
    requires forall c | c in cs :: IsRunning(c)
    ensures RunningPositions(cs) == seq(|cs|, i => i)
  {
    if cs != [] {
      AllPositions(cs[..|cs| - 1]);
    }
  }

  /** How often position `p` is picked by the `n` selections after counter value `c`. */
  function TimesPicked(c: nat, n: nat, cs: seq<Container>, p: nat): nat
    requires cs != []
  {
    if n == 0 then 0
    else TimesPicked(c, n - 1, cs, p) + if Pick((c + n) % UINT64, cs) == p then 1 else 0
  }

  // Counting residues.

  /** How many of the values start, ..., start + len - 1 leave remainder `j` modulo `m` after reduction modulo `n`. */
  function CountResidue(start: nat, len: nat, n: nat, m: nat, j: nat): nat
    requires n > 0 && m > 0
  {
    if len == 0 then 0
    else CountResidue(start, len - 1, n, m, j) + if Residue(start + len - 1, n, m) == j then 1 else 0
  }

  function Residue(counter: nat, n: nat, m: nat): nat
    requires n > 0 && m > 0
  {
    (counter % n) % m
  }

  /** How many numbers below `x` leave remainder `j` modulo `m`. */
  function UpTo(x: nat, m: nat, j: nat): nat
    requires m > 0
  {
    x / m + if j < x % m then 1 else 0
  }

  lemma DivModUnique(x: nat, m: nat, q: nat, r: nat)
    requires m > 0 && x == q * m + r && r < m
    ensures x / m == q && x % m == r
  {
    var d := x / m - q;
    assert x == (x / m) * m + x % m;
    assert d * m == r - x % m;
    MultipleIsFar(d, m);
  }

  /** A non-zero multiple of `m` is at least `m` away from zero. */
  lemma MultipleIsFar(d: int, m: nat)
    ensures d > 0 ==> d * m >= m
    ensures d < 0 ==> d * m <= -(m as int)
  {
  }

  lemma NextMultiple(q: int, m: int)
    ensures (q + 1) * m == q * m + m
  {
  }

  lemma Division(x: nat, m: nat)
    requires m > 0
    ensures x == (x / m) * m + x % m && 0 <= x % m < m
  {
  }

  /** The successor in terms of quotient and remainder, which are plain numbers here. */
  lemma SuccessorOf(x: nat, m: nat, q: nat, r: nat)
    requires x == q * m + r && r < m
    ensures var carry := r == m - 1;
            (x + 1) / m == (if carry then q + 1 else q) && (x + 1) % m == (if carry then 0 else r + 1)
  {
    if r == m - 1 {
      NextMultiple(q, m);
      DivModUnique(x + 1, m, q + 1, 0);
    } else {
      DivModUnique(x + 1, m, q, r + 1);
    }
  }

  lemma DivModSucc(x: nat, m: nat)
    requires m > 0
    ensures (x + 1) / m == x / m + (if x % m == m - 1 then 1 else 0)
    ensures (x + 1) % m == if x % m == m - 1 then 0 else x % m + 1
  {
    Division(x, m);
    SuccessorOf(x, m, x / m, x % m);
  }

  lemma SmallMod(x: nat, m: nat)
    requires x < m
    ensures x % m == x
  {
  }

  lemma {:induction false} CountSplits(start: nat, a: nat, b: nat, n: nat, m: nat, j: nat)
    requires n > 0 && m > 0
    ensures CountResidue(start, a + b, n, m, j) == CountResidue(start, a, n, m, j) + CountResidue(start + a, b, n, m, j)
  {
    hide Residue;
    if b > 0 {
      CountSplits(start, a, b - 1, n, m, j);
      assert start + (a + b) - 1 == start + a + b - 1;
    }
  }

  /** A stretch that stays within one multiple of `n` counts like its offsets. */
  lemma {:induction false} StretchCounts(start: nat, q: nat, s: nat, len: nat, n: nat, m: nat, j: nat)
    requires n > 0 && j < m && start == q * n + s && s + len <= n
    ensures CountResidue(start, len, n, m, j) == UpTo(s + len, m, j) - UpTo(s, m, j)
  {
    hide UpTo, Residue;
    if len > 0 {
      StretchCounts(start, q, s, len - 1, n, m, j);
      ResidueOf(start + len - 1, q, s + len - 1, n, m);
      UpToNext(s + len - 1, m, j);
    }
  }

  lemma ResidueOf(x: nat, q: nat, s: nat, n: nat, m: nat)
    requires m > 0 && x == q * n + s && s < n
    ensures Residue(x, n, m) == s % m
  {
    DivModUnique(x, n, q, s);
  }

  lemma UpToNext(x: nat, m: nat, j: nat)
    requires j < m
    ensures UpTo(x + 1, m, j) == UpTo(x, m, j) + if x % m == j then 1 else 0
  {
    DivModSucc(x, m);
  }

  /** Any `n` consecutive values count like 0, ..., n - 1. */
  lemma WholeStretch(start: nat, n: nat, m: nat, j: nat)
    requires n > 0 && j < m
    ensures CountResidue(start, n, n, m, j) == UpTo(n, m, j)
  {
    var q, s := start / n, start % n;
    Division(start, n);
    CountSplits(start, n - s, s, n, m, j);
    StretchCounts(start, q, s, n - s, n, m, j);
    NextMultiple(q, n);
    StretchCounts(start + (n - s), q + 1, 0, s, n, m, j);
    DivModUnique(0, m, 0, 0);
  }

  // Stretches of equal length.

  /** Whether `j` is one of the `r` residues modulo `m` from `u` on. */
  predicate InArc(u: nat, r: nat, m: nat, j: nat) {
    if u + r < m then u <= j < u + r else j >= u || j < u + r - m
  }

  lemma StretchIsArc(x: nat, len: nat, m: nat, j: nat)
    requires j < m
    ensures UpTo(x + len, m, j) - UpTo(x, m, j) == len / m + if InArc(x % m, len % m, m, j) then 1 else 0
  {
    Division(x, m);
    Division(len, m);
    SumOfQuotients(x, len, m, x / m, len / m, x % m, len % m);
  }

  lemma SumOfQuotients(x: nat, y: nat, m: nat, p: nat, q: nat, u: nat, r: nat)
    requires x == p * m + u && y == q * m + r && u < m && r < m
    ensures var carry := u + r >= m;
            (x + y) / m == p + q + (if carry then 1 else 0) && (x + y) % m == if carry then u + r - m else u + r
  {
    SumOfMultiples(p, q, m);
    if u + r >= m {
      NextMultiple(p + q, m);
      DivModUnique(x + y, m, p + q + 1, u + r - m);
    } else {
      DivModUnique(x + y, m, p + q, u + r);
    }
  }

  lemma SumOfMultiples(p: int, q: int, m: int)
    ensures (p + q) * m == p * m + q * m
  {
  }

  lemma ArcsDiffer(u: nat, v: nat, r: nat, m: nat) returns (j: nat)
    requires u < m && v < m && u != v && 0 < r < m
    ensures j < m && InArc(u, r, m, j) != InArc(v, r, m, j)
  {
    j := if !InArc(v, r, m, u) then u else if v + r < m then v + r else v + r - m;
  }

  /** Two stretches of one length hit every residue equally often exactly when the length is a multiple of `m` or they
      start at the same residue. */
  lemma StretchesAgreeIff(x: nat, y: nat, len: nat, m: nat)
    requires m > 0
    ensures (forall j | 0 <= j < m :: UpTo(x + len, m, j) - UpTo(x, m, j) == UpTo(y + len, m, j) - UpTo(y, m, j))
            <==> len % m == 0 || x % m == y % m
  {
    hide UpTo, InArc;
    forall j | 0 <= j < m
      ensures UpTo(x + len, m, j) - UpTo(x, m, j) == UpTo(y + len, m, j) - UpTo(y, m, j) <==>
              (InArc(x % m, len % m, m, j) <==> InArc(y % m, len % m, m, j))
    {
      StretchIsArc(x, len, m, j);
      StretchIsArc(y, len, m, j);
    }
    if len % m == 0 {
      EmptyArcs(x % m, y % m, m);
    } else if x % m != y % m {
      var j := ArcsDiffer(x % m, y % m, len % m, m);
    }
  }

  lemma EmptyArcs(u: nat, v: nat, m: nat)
    requires u < m && v < m
    ensures forall j | 0 <= j < m :: !InArc(u, 0, m, j) && !InArc(v, 0, m, j)
  {
  }

  // Rounds.

  /** How many containers take part: the running ones, or all when none is running. */
  function Slots(cs: seq<Container>): (m: nat)
    requires cs != []
    ensures 0 < m <= |cs|
  {
    if RunningPositions(cs) == [] then |cs| else |RunningPositions(cs)|
  }

  function SlotPosition(cs: seq<Container>, j: nat): (p: nat)
    requires cs != [] && j < Slots(cs)
    ensures p < |cs|
  {
    if RunningPositions(cs) == [] then j else RunningPositions(cs)[j]
  }

  /** A counter value picks slot `j` exactly when it reduces to `j`. */
  lemma PickHits(counter: nat, cs: seq<Container>, j: nat)
    requires cs != [] && j < Slots(cs)
    ensures Pick(counter, cs) == SlotPosition(cs, j) <==> Residue(counter, |cs|, Slots(cs)) == j
  {
    hide RunningPositions;
    SmallMod(counter % |cs|, |cs|);
  }

  /** The selections up to the wrap count on from `c + 1`, those after it from 0. */
  lemma {:induction false} TimesAreCounts(c: nat, len: nat, cs: seq<Container>, j: nat)
    requires cs != [] && c < UINT64 && len <= UINT64 && j < Slots(cs)
    ensures var n, m, before := |cs|, Slots(cs), UINT64 - 1 - c;
            TimesPicked(c, len, cs, SlotPosition(cs, j)) ==
            if len <= before then CountResidue(c + 1, len, n, m, j)
            else CountResidue(c + 1, before, n, m, j) + CountResidue(0, len - before, n, m, j)
  {
    hide RunningPositions, UINT64, Pick, Slots, SlotPosition, Residue;
    if len > 0 {
      TimesAreCounts(c, len - 1, cs, j);
      if c + len < UINT64 {
        DivModUnique(c + len, UINT64, 0, c + len);
        PickHits(c + len, cs, j);
      } else {
        DivModUnique(c + len, UINT64, 1, c + len - UINT64);
        PickHits(c + len - UINT64, cs, j);
      }
    }
  }

  /** The round of |cs| selections after counter value `c` is fair: the j-th of the `m` containers taking part is picked
      |cs| / m times, plus once if j < |cs| mod m. */
  ghost predicate Fair(c: nat, cs: seq<Container>)
    requires cs != []
  {
    forall j: nat | j < Slots(cs) ::
      TimesPicked(c, |cs|, cs, SlotPosition(cs, j)) == UpTo(|cs|, Slots(cs), j)
  }

  /** The counter does not wrap inside the round, or it wraps without harm: `before` selections come before the wrap,
      and 2^64 lies `rest` past a multiple of `n`. */
  predicate WrapsHarmlessly(c: nat, n: nat, m: nat)
    requires c < UINT64 && 0 < m <= n
  {
    var before, rest := UINT64 - 1 - c, UINT64 % n;
    before == 0 || before >= n
    || if before <= rest then before % m == 0 || (rest - before) % m == (n - before) % m
       else rest % m == 0 || (n - before) % m == 0
  }

  /** Round-robin is fair over a round exactly when the 64-bit counter does not wrap harmfully inside it. */
  lemma FairRound(c: nat, cs: seq<Container>)
    requires cs != [] && c < UINT64 && |cs| < UINT64
    ensures Fair(c, cs) <==> WrapsHarmlessly(c, |cs|, Slots(cs))
  {
    hide Slots, SlotPosition, TimesPicked, CountResidue, UINT64, UpTo;
    var n, m, before := |cs|, Slots(cs), UINT64 - 1 - c;
    forall j: nat | j < m
      ensures TimesPicked(c, n, cs, SlotPosition(cs, j)) ==
              if n <= before then CountResidue(c + 1, n, n, m, j)
              else CountResidue(c + 1, before, n, m, j) + CountResidue(0, n - before, n, m, j)
    {
      TimesAreCounts(c, n, cs, j);
    }
    if before >= n {
      NoWrapCounts(c, n, m);
    } else {
      WrapCounts(c, n, m);
    }
  }

  lemma NoWrapCounts(c: nat, n: nat, m: nat)
    requires 0 < m <= n
    ensures forall j: nat | j < m :: CountResidue(c + 1, n, n, m, j) == UpTo(n, m, j)
  {
    hide CountResidue, UpTo;
    forall j: nat | j < m
      ensures CountResidue(c + 1, n, n, m, j) == UpTo(n, m, j)
    {
      WholeStretch(c + 1, n, m, j);
    }
  }

  /** What the selections before the wrap must make up for. */
  lemma WrapCounts(c: nat, n: nat, m: nat)
    requires 0 < m <= n < UINT64 && c < UINT64 && UINT64 - 1 - c < n
    ensures var before := UINT64 - 1 - c;
            (forall j: nat | j < m ::
               CountResidue(c + 1, before, n, m, j) + CountResidue(0, n - before, n, m, j) == UpTo(n, m, j))
            <==> WrapsHarmlessly(c, n, m)
  {
    hide CountResidue, UpTo;
    var before, q, rest := UINT64 - 1 - c, UINT64 / n, UINT64 % n;
    var left := n - before;
    Division(UINT64, n);
    NothingBelowZero(m);
    forall j: nat | j < m
      ensures CountResidue(0, left, n, m, j) == UpTo(left, m, j)
    {
      StretchCounts(0, 0, 0, left, n, m, j);
    }
    if before <= rest {
      forall j: nat | j < m
        ensures CountResidue(c + 1, before, n, m, j) == UpTo(rest, m, j) - UpTo(rest - before, m, j)
      {
        StretchCounts(c + 1, q, rest - before, before, n, m, j);
      }
      StretchesAgreeIff(rest - before, n - before, before, m);
      if before == 0 {
        DivModUnique(0, m, 0, 0);
      }
    } else {
      forall j: nat | j < m
        ensures CountResidue(c + 1, before, n, m, j) ==
                UpTo(n, m, j) - UpTo(n - before + rest, m, j) + UpTo(rest, m, j)
      {
        AcrossTheMultiple(c + 1, q, rest, before, n, m, j);
      }
      StretchesAgreeIff(0, n - before, rest, m);
      DivModUnique(0, m, 0, 0);
    }
  }

  lemma NothingBelowZero(m: nat)
    requires m > 0
    ensures forall j: nat | j < m :: UpTo(0, m, j) == 0
  {
    DivModUnique(0, m, 0, 0);
  }

  /** A stretch that ends `rest` past a multiple of `n` and begins before it. */
  lemma AcrossTheMultiple(start: nat, q: nat, rest: nat, len: nat, n: nat, m: nat, j: nat)
    requires j < m && rest < len < n && start + len == q * n + rest && q > 0
    ensures CountResidue(start, len, n, m, j) == UpTo(n, m, j) - UpTo(n - len + rest, m, j) + UpTo(rest, m, j)
  {
    hide UpTo, CountResidue;
    CountSplits(start, len - rest, rest, n, m, j);
    NextMultiple(q - 1, n);
    StretchCounts(start, q - 1, n - len + rest, len - rest, n, m, j);
    StretchCounts(start + (len - rest), q, 0, rest, n, m, j);
    NothingBelowZero(m);
  }

  ghost predicate OnceEach(c: nat, cs: seq<Container>)
    requires cs != []
  {
    forall p: nat | p < |cs| :: TimesPicked(c, |cs|, cs, p) == 1
  }

  /** With none or all of the containers running, each is picked once a round exactly when the counter does not wrap
      inside the round or their number divides 2^64. */
  lemma EachOnceIff(c: nat, cs: seq<Container>)
    requires cs != [] && c < UINT64 && |cs| < UINT64 && Slots(cs) == |cs|
    ensures OnceEach(c, cs) <==>
            c + |cs| < UINT64 || c == UINT64 - 1 || UINT64 % |cs| == 0
  {
    hide TimesPicked, UINT64, Slots, Fair, OnceEach, WrapsHarmlessly;
    FairRound(c, cs);
    FairIsOnceEach(c, cs);
    HarmlessForAll(c, |cs|);
  }

  lemma FairIsOnceEach(c: nat, cs: seq<Container>)
    requires cs != [] && Slots(cs) == |cs|
    ensures Fair(c, cs) <==> OnceEach(c, cs)
  {
    hide RunningPositions, Pick, SlotPosition;
    AllSlots(cs);
    OneEach(|cs|);
    if Fair(c, cs) {
      forall p: nat | p < |cs|
        ensures TimesPicked(c, |cs|, cs, p) == 1
      {
        assert SlotPosition(cs, p) == p;
        assert UpTo(|cs|, Slots(cs), p) == 1;
      }
    }
    if OnceEach(c, cs) {
      forall j: nat | j < Slots(cs)
        ensures TimesPicked(c, |cs|, cs, SlotPosition(cs, j)) == UpTo(|cs|, Slots(cs), j)
      {
        assert SlotPosition(cs, j) == j;
        assert UpTo(|cs|, |cs|, j) == 1;
      }
    }
  }

  lemma OneEach(n: nat)
    requires n > 0
    ensures forall j: nat | j < n :: UpTo(n, n, j) == 1
  {
    DivModUnique(n, n, 1, 0);
  }

  lemma AllSlots(cs: seq<Container>)
    requires cs != [] && Slots(cs) == |cs|
    ensures forall p: nat | p < |cs| :: SlotPosition(cs, p) == p
  {
    hide RunningPositions;
    var r := RunningPositions(cs);
    if r != [] {
      IncreasingFills(r, |cs|);
    }
  }

  /** `n` increasing numbers below `n` are 0, ..., n - 1. */
  lemma {:induction false} IncreasingFills(r: seq<nat>, n: nat)
    requires |r| == n && forall i, j | 0 <= i < j < n :: r[i] < r[j]
    requires forall i | 0 <= i < n :: r[i] < n
    ensures forall i | 0 <= i < n :: r[i] == i
  {
    if n > 0 {
      assert r[n - 1] == n - 1 by {
        AtLeast(r, n - 1);
      }
      var init := r[..n - 1];
      forall i | 0 <= i < n - 1
        ensures init[i] < n - 1
      {
        assert init[i] == r[i] < r[n - 1];
      }
      IncreasingFills(init, n - 1);
      forall i | 0 <= i < n
        ensures r[i] == i
      {
        assert i < n - 1 ==> init[i] == r[i];
      }
    }
  }

  lemma {:induction false} AtLeast(r: seq<nat>, i: nat)
    requires i < |r| && forall a, b | 0 <= a < b < |r| :: r[a] < r[b]
    ensures r[i] >= i
  {
    if i > 0 {
      AtLeast(r, i - 1);
    }
  }

  lemma HarmlessForAll(c: nat, n: nat)
    requires c < UINT64 && 0 < n < UINT64
    ensures WrapsHarmlessly(c, n, n) <==> c + n < UINT64 || c == UINT64 - 1 || UINT64 % n == 0
  {
    var before, rest := UINT64 - 1 - c, UINT64 % n;
    Division(UINT64, n);
    DivModUnique(0, n, 0, 0);
    SmallMod(rest, n);
    if 0 < before < n {
      SmallMod(before, n);
      SmallMod(n - before, n);
      if before <= rest {
        SmallMod(rest - before, n);
      }
    }
  }

  /** As long as somebody is running, nobody else is ever picked. */
  lemma {:induction false} OnlyRunningArePicked(c: nat, n: nat, cs: seq<Container>, p: nat)
    requires p < |cs| && !IsRunning(cs[p]) && RunningPositions(cs) != []
    ensures TimesPicked(c, n, cs, p) == 0
  {
    hide RunningPositions, UINT64;
    if n > 0 {
      OnlyRunningArePicked(c, n - 1, cs, p);
    }
  }

  /** A container that does not count as running gets no request in a round exactly when another one counts. */
  lemma IdleIffSomebodyRuns(c: nat, cs: seq<Container>, p: nat)
    requires p < |cs| < UINT64 && c < UINT64 && !IsRunning(cs[p])
    requires c + |cs| < UINT64 || c == UINT64 - 1 || UINT64 % |cs| == 0
    ensures TimesPicked(c, |cs|, cs, p) == 0 <==> exists k :: 0 <= k < |cs| && IsRunning(cs[k])
  {
    hide UINT64, TimesPicked, RunningPositions, IsRunning;
    if k :| 0 <= k < |cs| && IsRunning(cs[k]) {
      assert k in RunningPositions(cs);
      OnlyRunningArePicked(c, |cs|, cs, p);
    } else {
      NobodyRuns(cs);
      EachOnceIff(c, cs);
    }
  }

  /** Docker reports a running container as "Up" and an age, which the router's exact test does not recognise: if every
      status is such a text or does not say "Up" at all, every container, stopped or not, gets one request a round. */
  lemma DockerStatusIsNotRunning(c: nat, cs: seq<Container>, ages: seq<string>, p: nat)
    requires p < |cs| < UINT64 && c < UINT64 && |ages| == |cs|
    requires c + |cs| < UINT64 || c == UINT64 - 1 || UINT64 % |cs| == 0
    requires forall k | 0 <= k < |cs| :: cs[k].status == "Up " + ages[k] || cs[k].status !in {"Up", "running"}
    ensures !IsRunning(cs[p]) && TimesPicked(c, |cs|, cs, p) == 1
  {
    hide UINT64, TimesPicked;
    forall k | 0 <= k < |cs|
      ensures !IsRunning(cs[k])
    {
      assert |"Up " + ages[k]| > |"Up"| && ("Up " + ages[k])[0] != "running"[0];
    }
    NobodyRuns(cs);
    EachOnceIff(c, cs);
  }

  lemma {:induction false} NobodyRuns(cs: seq<Container>)
    requires forall k | 0 <= k < |cs| :: !IsRunning(cs[k])
    ensures RunningPositions(cs) == []
  {
    if cs != [] {
      NobodyRuns(cs[..|cs| - 1]);
    }
  }
}
