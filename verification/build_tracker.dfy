/** The build tracker: a bounded list compacted in place, an index by id, and lossy broadcast to subscribers. */
module BuildTracking {
  import opened GoText
  import opened BuildHistory

  const QUEUE_CAPACITY := 10

  /** What a bounded queue does with one more element: it takes it or drops it. */
  function Offered(queue: seq<BuildEntry>, e: BuildEntry): seq<BuildEntry> {
    if |queue| < QUEUE_CAPACITY then queue + [e] else queue
  }

  /** `a` is `b` with some elements left out. */
  predicate IsSubsequence(a: seq<BuildEntry>, b: seq<BuildEntry>) {
    if a == [] then true
    else if b == [] then false
    else if a[|a| - 1] == b[|b| - 1] && IsSubsequence(a[..|a| - 1], b[..|b| - 1]) then true
    else IsSubsequence(a, b[..|b| - 1])
  }

  lemma SubsequenceGrows(a: seq<BuildEntry>, b: seq<BuildEntry>, e: BuildEntry)
    requires IsSubsequence(a, b)
    ensures IsSubsequence(a, b + [e]) && IsSubsequence(a + [e], b + [e])
  {
    assert (a + [e])[..|a + [e]| - 1] == a && (b + [e])[..|b + [e]| - 1] == b;
  }

  /** What a subscriber saw sits in what was broadcast, in order, at increasing positions. */
  lemma {:induction false} SubsequencePositions(a: seq<BuildEntry>, b: seq<BuildEntry>) returns (at: seq<nat>)
    requires IsSubsequence(a, b)
    ensures |at| == |a| && forall k | 0 <= k < |a| :: at[k] < |b| && b[at[k]] == a[k]
    ensures forall j, k | 0 <= j < k < |a| :: at[j] < at[k]
  {
    if a == [] {
      at := [];
    } else if a[|a| - 1] == b[|b| - 1] && IsSubsequence(a[..|a| - 1], b[..|b| - 1]) {
      at := SubsequencePositions(a[..|a| - 1], b[..|b| - 1]);
      at := at + [|b| - 1];
    } else {
      at := SubsequencePositions(a, b[..|b| - 1]);
    }
  }

  /** A subscriber's buffered channel. */
  class Channel {
    var queue: seq<BuildEntry>
    var closed: bool
    /** Everything broadcast while subscribed, everything received, and whether a broadcast met a full queue. */
    ghost var offered: seq<BuildEntry>
    ghost var received: seq<BuildEntry>
    ghost var overflowed: bool
    /** The number of its subscription, and how much had been broadcast before it. */
    ghost const number: int
    ghost const since: nat

    ghost predicate Valid()
      reads this
    {
      |queue| <= QUEUE_CAPACITY
      && IsSubsequence(received + queue, offered)
      && (!overflowed ==> received + queue == offered)
    }

    constructor (ghost number: int, ghost since: nat)
      ensures Valid() && this.number == number && this.since == since && queue == [] && !closed
      ensures offered == [] && received == [] && !overflowed
    {
      queue, closed, offered, received, overflowed := [], false, [], [], false;
      this.number, this.since := number, since;
    }

    /** Non-blocking send. Sending on a closed channel panics, so it is a precondition. */
    method TrySend(e: BuildEntry)
      requires Valid() && !closed
      modifies this
      ensures Valid() && !closed && received == old(received) && offered == old(offered) + [e]
      ensures queue == Offered(old(queue), e) && |queue| <= 10
      ensures overflowed <==> old(overflowed) || |old(queue)| == QUEUE_CAPACITY
    {
      SubsequenceGrows(received + queue, offered, e);
      if |queue| < QUEUE_CAPACITY {
        assert received + (queue + [e]) == received + queue + [e];
        queue := queue + [e];
      } else {
        overflowed := true;
      }
      offered := offered + [e];
    }

    /** What a reader gets: the oldest queued entry, or nothing. */
    method Receive() returns (e: Option<BuildEntry>)
      requires Valid()
      modifies this
      ensures Valid() && closed == old(closed) && offered == old(offered) && overflowed == old(overflowed)
      ensures old(queue) == [] ==> e == None && queue == [] && received == old(received)
      ensures old(queue) != [] ==>
                e == Some(old(queue)[0]) && queue == old(queue)[1..] && received == old(received) + [old(queue)[0]]
    {
      if queue == [] {
        return None;
      }
      e := Some(queue[0]);
      assert received + queue == received + [queue[0]] + queue[1..];
      received, queue := received + [queue[0]], queue[1..];
    }

    method Close()
      requires Valid() && !closed
      modifies this
      ensures Valid() && closed && queue == old(queue) && offered == old(offered) && received == old(received)
      ensures overflowed == old(overflowed)
    {
      closed := true;
    }
  }

  twostate predicate Untouched(c: Channel)
    reads c
  {
    c.queue == old(c.queue) && c.closed == old(c.closed) && c.offered == old(c.offered)
    && c.received == old(c.received) && c.overflowed == old(c.overflowed)
  }

  twostate predicate SentTo(c: Channel, e: BuildEntry)
    reads c
  {
    c.Valid() && !c.closed && c.queue == Offered(old(c.queue), e) && c.offered == old(c.offered) + [e]
    && c.received == old(c.received)
    && (c.overflowed <==> old(c.overflowed) || |old(c.queue)| == QUEUE_CAPACITY)
  }

  ghost predicate Submap<K, V>(a: map<K, V>, b: map<K, V>)
    ensures Submap(a, b) ==> a.Values <= b.Values
  {
    a.Keys <= b.Keys && forall k | k in a :: a[k] == b[k]
  }

  /** The range loop over the subscribers, in any order. */
  method OfferAll(subs: map<int, Channel>, e: BuildEntry)
    requires forall n | n in subs :: subs[n].Valid() && subs[n].number == n && !subs[n].closed
    modifies subs.Values
    ensures forall n | n in subs :: SentTo(subs[n], e)
  {
    hide IsSubsequence, Offered, QUEUE_CAPACITY;
    var todo := subs.Keys;
    while todo != {}
      invariant todo <= subs.Keys
      invariant forall n | n in todo :: Untouched(subs[n]) && subs[n].Valid()
      invariant forall n | n in subs && n !in todo :: SentTo(subs[n], e)
    {
      var n := NextKey(todo);
      todo := todo - {n};
      subs[n].TrySend(e);
    }
  }

  /** The index maps every present id to its last position, and nothing else. */
  ghost predicate IndexOk(index: map<string, nat>, es: seq<BuildEntry>) {
    forall id :: (id in index <==> LastOf(es, id).Some?) && (id in index ==> LastOf(es, id) == Some(index[id]))
  }

  lemma AfterNothing(es: seq<BuildEntry>, cutoff: Time)
    ensures After(es[..0], cutoff) == []
  {
  }

  lemma AfterOneMore(es: seq<BuildEntry>, i: nat, cutoff: Time)
    requires i < |es|
    ensures After(es[..i + 1], cutoff) == After(es[..i], cutoff) + if Stamp(es[i]) > cutoff then [es[i]] else []
  {
    assert es[..i + 1][..i] == es[..i];
  }

  lemma IndexAnswers(index: map<string, nat>, es: seq<BuildEntry>, id: string)
    requires IndexOk(index, es)
    ensures id in index <==> LastOf(es, id).Some?
    ensures id in index ==> LastOf(es, id) == Some(index[id]) && index[id] < |es|
  {
  }

  lemma IndexGrows(index: map<string, nat>, es: seq<BuildEntry>, e: BuildEntry)
    requires IndexOk(index, es)
    ensures IndexOk(index[e.id := |es|], es + [e])
  {
    assert (es + [e])[..|es|] == es;
  }

  /** Patching an entry moves no id, so the index stays right. */
  lemma PatchKeepsIds(es: seq<BuildEntry>, at: nat, change: BuildUpdate, index: map<string, nat>)
    requires at < |es| && IndexOk(index, es)
    ensures IndexOk(index, es[at := Patched(es[at], change)])
  {
    var patched := es[at := Patched(es[at], change)];
    forall id
      ensures LastOf(patched, id) == LastOf(es, id)
    {
      SameIdsSameLast(es, patched, id);
    }
  }

  lemma {:induction false} SameIdsSameLast(a: seq<BuildEntry>, b: seq<BuildEntry>, id: string)
    requires |a| == |b| && forall k | 0 <= k < |a| :: a[k].id == b[k].id
    ensures LastOf(a, id) == LastOf(b, id)
  {
    if a != [] {
      SameIdsSameLast(a[..|a| - 1], b[..|b| - 1], id);
    }
  }

  class BuildTracker {
    var entries: array<BuildEntry>
    var len: nat
    var index: map<string, nat>
    const limit: nat
    const retention: int
    var subs: map<int, Channel>
    var nextSubID: int
    /** Every channel ever handed out, by its subscription number, and everything ever broadcast. */
    ghost var issued: map<int, Channel>
    ghost var broadcasts: seq<BuildEntry>

    /** The abstract history. */
    function History(): seq<BuildEntry>
      reads `entries, `len, entries
      requires len <= entries.Length
    {
      entries[..len]
    }

    ghost predicate ListValid()
      reads `entries, `len, `index, entries
    {
      len <= entries.Length && 0 < limit && len <= limit && IndexOk(index, entries[..len])
    }

    /** Every channel ever handed out was offered the broadcasts from its subscription on: all of them while it is
        subscribed, and those up to its cancellation afterwards. */
    ghost predicate SubsValid()
      reads `subs, `nextSubID, `issued, `broadcasts, issued.Values
    {
      0 <= nextSubID
      && (forall n :: n in issued <==> 0 <= n < nextSubID)
      && Submap(subs, issued)
      && (forall n | n in issued ::
            issued[n].Valid() && issued[n].number == n && issued[n].since <= |broadcasts|
            && (issued[n].closed <==> n !in subs)
            && issued[n].offered <= broadcasts[issued[n].since..]
            && (n in subs ==> issued[n].offered == broadcasts[issued[n].since..]))
    }

    ghost predicate Valid()
      reads this, entries, issued.Values
    {
      ListValid() && SubsValid()
    }

    constructor (limit: int, retention: int)
      ensures Valid() && History() == [] && fresh(entries) && subs == map[] && issued == map[]
      ensures this.limit == (if limit <= 0 then 100 else limit) && this.retention == retention
    {
      this.limit := if limit <= 0 then 100 else limit;
      this.retention := retention;
      entries := new BuildEntry[0];
      len, index, subs, nextSubID := 0, map[], map[], 0;
      issued, broadcasts := map[], [];
    }

    method RebuildIndexLocked()
      requires len <= entries.Length
      modifies this`index
      ensures IndexOk(index, entries[..len])
    {
      index := map[];
      for i := 0 to len
        invariant IndexOk(index, entries[..i])
      {
        hide IndexOk;
        IndexGrows(index, entries[..i], entries[i]);
        assert entries[..i + 1] == entries[..i] + [entries[i]];
        index := index[entries[i].id := i];
      }
    }

    /** Drops what is older than the retention, writing the survivors over the array they are read from. */
    method PruneLocked(now: Time)
      requires ListValid()
      modifies this`index, this`len, entries
      ensures ListValid() && History() == Fresh(old(History()), retention, now)
    {
      hide IndexOk, After;
      if retention <= 0 || len == 0 {
        AfterNothing(entries[..len], now - retention);
        assert len == 0 ==> entries[..len] == [];
        return;
      }
      var kept := CompactInPlace(now - retention);
      len := kept;
      RebuildIndexLocked();
    }

    /** The filter loop: `kept` never overtakes `i`, so every entry is read before it is overwritten. */
    method CompactInPlace(cutoff: Time) returns (kept: nat)
      requires len <= entries.Length
      modifies entries
      ensures kept <= len && entries[..kept] == After(old(entries[..len]), cutoff)
    {
      hide After;
      ghost var before := entries[..len];
      AfterNothing(before, cutoff);
      kept := 0;
      for i := 0 to len
        invariant kept <= i
        invariant entries[..kept] == After(before[..i], cutoff)
        invariant forall k | i <= k < len :: entries[k] == before[k]
      {
        var e := entries[i];
        AfterOneMore(before, i, cutoff);
        if Stamp(e) > cutoff {
          entries[kept] := e;
          assert entries[..kept + 1] == After(before[..i], cutoff) + [e];
          kept := kept + 1;
        }
      }
      assert before[..len] == before;
    }

    /** Offers the entry to every subscriber, in any order; a full queue drops it. */
    method BroadcastLocked(e: BuildEntry)
      requires SubsValid()
      modifies this`broadcasts, issued.Values
      ensures SubsValid() && broadcasts == old(broadcasts) + [e]
      ensures Delivered(e)
    {
      hide IsSubsequence, Offered;
      OfferAll(subs, e);
      broadcasts := broadcasts + [e];
      DeliveredKeepsSubs(e);
    }

    twostate lemma DeliveredKeepsSubs(e: BuildEntry)
      requires old(SubsValid()) && Delivered(e) && nextSubID == old(nextSubID)
      requires broadcasts == old(broadcasts) + [e]
      ensures SubsValid()
    {
      hide IsSubsequence, Offered;
      forall n | n in issued
        ensures issued[n].Valid() && (issued[n].closed <==> n !in subs) && issued[n].since <= |broadcasts|
        ensures issued[n].offered <= broadcasts[issued[n].since..]
        ensures n in subs ==> issued[n].offered == broadcasts[issued[n].since..]
      {
        assert old(issued[n].Valid());
        assert broadcasts[issued[n].since..] == old(broadcasts)[issued[n].since..] + [e];
        if n in subs {
          assert SentTo(issued[n], e);
        } else {
          assert Untouched(issued[n]);
        }
      }
    }

    /** Exactly the current subscribers were offered the entry. */
    twostate predicate Delivered(e: BuildEntry)
      reads this, issued.Values
    {
      subs == old(subs) && issued == old(issued)
      && forall n | n in issued :: if n in subs then SentTo(issued[n], e) else Untouched(issued[n])
    }

    /** Newest first: prune, put the entry in front, cut the list to the limit, tell the subscribers. */
    method Add(entry: BuildEntry, generatedId: string, now: Time) returns (added: BuildEntry)
      requires Valid()
      modifies this`entries, this`len, this`index, this`broadcasts, entries, issued.Values
      ensures Valid() && fresh(entries)
      ensures added == if entry.id == "" then entry.(id := generatedId) else entry
      ensures History() == Added(old(History()), added, limit, retention, now)
      ensures broadcasts == old(broadcasts) + [added] && Delivered(added)
    {
      added := if entry.id == "" then entry.(id := generatedId) else entry;
      hide IsSubsequence, Offered, IndexOk, After, SubsValid;
      PruneLocked(now);
      Prepend(added);
      TrimLocked();
      BroadcastLocked(added);
    }

    method Prepend(e: BuildEntry)
      requires len <= entries.Length
      modifies this`entries, this`len, this`index
      ensures len <= entries.Length && fresh(entries) && History() == [e] + old(History())
      ensures IndexOk(index, entries[..len])
    {
      hide IndexOk;
      var grown := new BuildEntry[len + 1];
      grown[0] := e;
      for i := 0 to len
        invariant len == old(len) && entries == old(entries) && entries[..] == old(entries[..])
        invariant grown[0] == e && forall k | 0 <= k < i :: grown[k + 1] == entries[k]
      {
        grown[i + 1] := entries[i];
      }
      assert grown[..len + 1] == [e] + entries[..len];
      entries, len := grown, len + 1;
      RebuildIndexLocked();
    }

    method TrimLocked()
      requires len <= entries.Length && 0 < limit && IndexOk(index, entries[..len])
      modifies this`len, this`index
      ensures ListValid() && History() == Take(limit, old(History()))
    {
      if len <= limit {
        return;
      }
      assert entries[..limit] == entries[..len][..limit];
      len := limit;
      RebuildIndexLocked();
    }

    /** Patches the last entry with this id, prunes, and broadcasts what the id stands for now. With repeated ids
        the entry reported may be another one than the entry patched. */
    method Update(id: string, change: BuildUpdate, now: Time) returns (result: Option<BuildEntry>)
      requires Valid()
      modifies this`len, this`index, this`broadcasts, entries, issued.Values
      ensures Valid() && entries == old(entries)
      ensures History() == Updated(old(History()), id, change, retention, now)
      ensures result == if LastOf(old(History()), id).None? then None else Found(History(), id)
      ensures UpdateShows(old(History()), id, change, retention, now, History(), result)
      ensures result.None? ==> broadcasts == old(broadcasts)
      ensures result.Some? ==> broadcasts == old(broadcasts) + [result.value] && Delivered(result.value)
    {
      hide IsSubsequence, Offered, After, Patched, UpdateShows, IndexOk, LastOf, SubsValid;
      ghost var before := entries[..len];
      UpdateShown(before, id, change, retention, now);
      IndexAnswers(index, before, id);
      if id !in index {
        return None;
      }
      var at := index[id];
      PatchKeepsIds(before, at, change, index);
      entries[at] := Patched(entries[at], change);
      assert entries[..len] == before[at := Patched(before[at], change)];
      PruneLocked(now);
      IndexAnswers(index, entries[..len], id);
      if id !in index {
        return None;
      }
      result := Some(entries[index[id]]);
      BroadcastLocked(result.value);
    }

    /** A copy of the pruned history: the caller's array is its own. */
    method List(now: Time) returns (out: array<BuildEntry>)
      requires Valid()
      modifies this`len, this`index, entries
      ensures Valid() && entries == old(entries) && fresh(out)
      ensures History() == Fresh(old(History()), retention, now) && out[..] == History()
    {
      hide IsSubsequence, Offered, After, IndexOk, LastOf;
      PruneLocked(now);
      out := new BuildEntry[len];
      for i := 0 to len
        invariant out[..i] == entries[..i]
        invariant Valid() && entries[..len] == Fresh(old(entries[..len]), retention, now)
      {
        out[i] := entries[i];
      }
    }

    /** An id that is not indexed is answered at once; otherwise the history is pruned before looking it up again. */
    method Get(id: string, now: Time) returns (result: Option<BuildEntry>)
      requires Valid()
      modifies this`len, this`index, entries
      ensures Valid() && entries == old(entries)
      ensures History() == Step(old(History()), Op.Get(id), limit, retention, now)
      ensures result == if LastOf(old(History()), id).None? then None else Found(History(), id)
    {
      hide IsSubsequence, Offered, After;
      if id !in index {
        return None;
      }
      PruneLocked(now);
      if id !in index {
        return None;
      }
      result := Some(entries[index[id]]);
    }

    method Clear()
      requires Valid()
      modifies this`entries, this`len, this`index
      ensures Valid() && fresh(entries) && History() == []
    {
      entries, len, index := new BuildEntry[0], 0, map[];
    }

    /** Hands out a new channel under a number never used before. */
    method Subscribe() returns (ch: Channel, id: int)
      requires Valid()
      modifies this`subs, this`nextSubID, this`issued
      ensures Valid() && fresh(ch) && id !in old(issued) && issued == old(issued)[id := ch] && id in subs
      ensures subs == old(subs)[id := ch] && ch.queue == [] && ch.received == [] && ch.since == |broadcasts|
    {
      hide ListValid, IsSubsequence;
      ch := new Channel(nextSubID, |broadcasts|);
      id := nextSubID;
      nextSubID := nextSubID + 1;
      subs := subs[id := ch];
      issued := issued[id := ch];
    }

    /** The cancel function of subscription `id`: closes its own channel, once. */
    method Cancel(id: int)
      requires Valid()
      modifies this`subs, issued.Values
      ensures Valid() && subs == old(subs) - {id} && issued == old(issued)
      ensures forall n | n in issued && (n != id || id !in old(subs)) :: Untouched(issued[n])
      ensures id in old(subs) ==> issued[id].closed && issued[id].queue == old(issued[id].queue)
                                  && issued[id].received == old(issued[id].received)
                                  && issued[id].offered == old(issued[id].offered)
    {
      hide IsSubsequence;
      if id in subs {
        var existing := subs[id];
        subs := subs - {id};
        existing.Close();
      }
    }

    /** A subscriber reads from its channel, before or after cancelling. */
    method ReadFrom(ch: Channel, ghost id: int) returns (e: Option<BuildEntry>)
      requires Valid() && id in issued && issued[id] == ch
      modifies issued.Values
      ensures Valid() && forall n | n in issued && n != id :: Untouched(issued[n])
      ensures issued[id].received == old(issued[id].received) + if e.Some? then [e.value] else []
      ensures issued[id].received + issued[id].queue == old(issued[id].received + issued[id].queue)
      ensures e.None? <==> old(issued[id].queue) == []
    {
      hide IsSubsequence;
      e := ch.Receive();
    }
  }

  /** The operations with missing ids filled in: the k-th one gets `generated(k)`. */
  function Named(ops: seq<(Op, Time)>, generated: nat -> string): (r: seq<(Op, Time)>)
    ensures |r| == |ops|
  {
    seq(|ops|, k requires 0 <= k < |ops| => (NamedOp(ops[k].0, generated(k)), ops[k].1))
  }

  function NamedOp(op: Op, generated: string): Op {
    if op.Add? && op.entry.id == "" then Add(op.entry.(id := generated)) else op
  }

  /** Over every run of operations the tracker's history is that of the plain sequence model. */
  method Perform(t: BuildTracker, ops: seq<(Op, Time)>, generated: nat -> string)
    requires t.Valid()
    modifies t, t.entries, t.issued.Values
    ensures t.Valid() && t.History() == Run(old(t.History()), Named(ops, generated), t.limit, t.retention)
    ensures |t.History()| <= t.limit && t.issued == old(t.issued)
  {
    hide IsSubsequence, After, LastOf, IndexOk, Updated, Added, Fresh, BuildTracker.SubsValid;
    ghost var h0, named := t.History(), Named(ops, generated);
    for n := 0 to |ops|
      invariant t.Valid() && t.issued == old(t.issued)
      invariant t.entries == old(t.entries) || fresh(t.entries)
      invariant t.History() == Run(h0, named[..n], t.limit, t.retention)
    {
      assert named[..n + 1][..n] == named[..n] && named[n] == (NamedOp(ops[n].0, generated(n)), ops[n].1);
      match ops[n].0 {
        case Add(e) => var _ := t.Add(e, generated(n), ops[n].1);
        case Update(id, change) => var _ := t.Update(id, change, ops[n].1);
        case List => var _ := t.List(ops[n].1);
        case Get(id) => var _ := t.Get(id, ops[n].1);
        case Clear => t.Clear();
      }
    }
    assert named[..|ops|] == named;
  }
}
