/** Listing builds: filter, cut to a limit, strip the output, on a copy of the tracker's history. */
module BuildListing {
  import opened GoText
  import opened BuildHistory
  import opened BuildTracking

  datatype BuildListFilter = BuildListFilter(
    statuses: Option<set<string>>, sourceTypes: Option<set<string>>, nameContains: string,
    since: Time, before: Time, limit: int, includeOutput: bool)

  predicate Matches(e: BuildEntry, f: BuildListFilter) {
    (f.nameContains == "" || Contains(ToLower(e.name), f.nameContains))
    && (f.statuses.Some? ==> ToLower(e.status) in f.statuses.value)
    && (f.sourceTypes.Some? ==> ToLower(e.sourceType) in f.sourceTypes.value)
    && (f.since == 0 || e.startedAt >= f.since)
    && (f.before == 0 || e.startedAt <= f.before)
  }

  function Matching(es: seq<BuildEntry>, f: BuildListFilter): (r: seq<BuildEntry>)
    ensures |r| <= |es| && forall e | e in r :: Matches(e, f)
  {
    if es == [] then []
    else Matching(es[..|es| - 1], f) + if Matches(es[|es| - 1], f) then [es[|es| - 1]] else []
  }

  /** Why an entry is left out of a listing. The text looked for arrives in lower case, so the name is compared in lower
      case. */
  ghost predicate LeftOut(e: BuildEntry, f: BuildListFilter) {
    (f.nameContains != "" && !exists before, after :: ToLower(e.name) == before + f.nameContains + after)
    || (f.statuses.Some? && ToLower(e.status) !in f.statuses.value)
    || (f.sourceTypes.Some? && ToLower(e.sourceType) !in f.sourceTypes.value)
    || (f.since != 0 && e.startedAt < f.since)
    || (f.before != 0 && e.startedAt > f.before)
  }

  /** Matching is the filter that drops exactly those entries and keeps the order. */
  lemma MatchingAlone(e: BuildEntry, f: BuildListFilter)
    ensures Matching([e], f) == if LeftOut(e, f) then [] else [e]
  {
    assert [e][..0] == [] && Matching([], f) == [];
    MatchesIff(e, f);
  }

  lemma MatchesIff(e: BuildEntry, f: BuildListFilter)
    ensures Matches(e, f) <==> !LeftOut(e, f)
  {
    hide Contains, ToLower;
    ContainsMeansCut(ToLower(e.name), f.nameContains);
  }

  lemma {:induction false} MatchingConcat(a: seq<BuildEntry>, b: seq<BuildEntry>, f: BuildListFilter)
    ensures Matching(a + b, f) == Matching(a, f) + Matching(b, f)
  {
    hide Matches;
    if b == [] {
      assert a + b == a;
    } else {
      assert (a + b)[..|a + b| - 1] == a + b[..|b| - 1];
      MatchingConcat(a, b[..|b| - 1], f);
    }
  }

  function Stripped(e: BuildEntry): BuildEntry {
    e.(output := "", truncated := false)
  }

  function StrippedAll(es: seq<BuildEntry>): (r: seq<BuildEntry>)
    ensures |r| == |es|
    ensures forall k | 0 <= k < |es| :: r[k] == Stripped(es[k])
  {
    seq(|es|, k requires 0 <= k < |es| => Stripped(es[k]))
  }

  function Page(es: seq<BuildEntry>, f: BuildListFilter): seq<BuildEntry> {
    var hits := Matching(es, f);
    if f.limit > 0 then Take(f.limit, hits) else hits
  }

  /** What a listing shows. */
  function Shown(es: seq<BuildEntry>, f: BuildListFilter): seq<BuildEntry> {
    if f.includeOutput then Page(es, f) else StrippedAll(Page(es, f))
  }

  /** Stripping empties the output and touches nothing else. */
  lemma StrippedFields(e: BuildEntry)
    ensures Stripped(e).output == "" && !Stripped(e).truncated
    ensures Stripped(e).(output := e.output, truncated := e.truncated) == e
  {
  }

  /** The result is a slice: the first `count` elements of `filtered`. */
  method FilterBuildEntries(entries: array<BuildEntry>, f: BuildListFilter)
    returns (filtered: array<BuildEntry>, count: nat)
    ensures fresh(filtered) && count <= filtered.Length && filtered[..count] == Shown(entries[..], f)
    ensures f.limit > 0 ==> count <= f.limit
    ensures !f.includeOutput ==> forall k | 0 <= k < count :: filtered[k].output == "" && !filtered[k].truncated
  {
    hide Matches;
    filtered := new BuildEntry[entries.Length];
    count := 0;
    for i := 0 to entries.Length
      invariant count <= i && filtered[..count] == Matching(entries[..i], f)
    {
      hide Contains;
      assert entries[..i + 1][..i] == entries[..i];
      if Matches(entries[i], f) {
        filtered[count] := entries[i];
        assert filtered[..count + 1] == Matching(entries[..i], f) + [entries[i]];
        count := count + 1;
      }
    }
    assert entries[..entries.Length] == entries[..];
    if f.limit > 0 && count > f.limit {
      assert filtered[..count][..f.limit] == filtered[..f.limit];
      count := f.limit;
    }
    if !f.includeOutput {
      StripInPlace(filtered, count);
    }
  }

  method StripInPlace(filtered: array<BuildEntry>, count: nat)
    requires count <= filtered.Length
    modifies filtered
    ensures filtered[..] == StrippedAll(old(filtered[..count])) + old(filtered[count..])
  {
    for i := 0 to count
      invariant forall k | 0 <= k < i :: filtered[k] == Stripped(old(filtered[k]))
      invariant forall k | i <= k < filtered.Length :: filtered[k] == old(filtered[k])
    {
      filtered[i] := Stripped(filtered[i]);
    }
  }

  lemma StrippingKeepsMatch(e: BuildEntry, f: BuildListFilter)
    ensures Matches(Stripped(e), f) <==> Matches(e, f)
  {
  }

  lemma {:induction false} MatchingAll(es: seq<BuildEntry>, f: BuildListFilter)
    requires forall e | e in es :: Matches(e, f)
    ensures Matching(es, f) == es
  {
    hide Matches;
    if es != [] {
      MatchingAll(es[..|es| - 1], f);
      assert es == es[..|es| - 1] + [es[|es| - 1]];
    }
  }

  /** Listing what a listing showed shows it again: the filter does not look at what stripping removes. */
  lemma ShownTwice(es: seq<BuildEntry>, f: BuildListFilter)
    ensures Shown(Shown(es, f), f) == Shown(es, f)
  {
    hide Matches;
    var r := Shown(es, f);
    forall e | e in r
      ensures Matches(e, f)
    {
      var k :| 0 <= k < |r| && r[k] == e;
      assert Page(es, f)[k] in Matching(es, f);
      StrippingKeepsMatch(Page(es, f)[k], f);
    }
    MatchingAll(r, f);
  }

  /** The list handler: stripping happens on the copy, so the tracker's own entries keep their output. */
  method HandleListBuilds(t: BuildTracker, f: BuildListFilter, now: Time)
    returns (shown: array<BuildEntry>, count: nat)
    requires t.Valid()
    modifies t`len, t`index, t.entries
    ensures t.Valid() && t.History() == Fresh(old(t.History()), t.retention, now)
    ensures fresh(shown) && count <= shown.Length && shown[..count] == Shown(t.History(), f)
  {
    hide IsSubsequence, IndexOk, Matches, After;
    var entries := t.List(now);
    shown, count := FilterBuildEntries(entries, f);
  }
}
