/** The buffer that keeps the beginning of a build's output and swallows the rest. */
module TruncatingBuffer {
  type Byte = b: int | 0 <= b < 256

  /** The buffer's state as a value. */
  datatype Buffered = Buffered(contents: seq<Byte>, truncated: bool)

  function AfterWrite(b: Buffered, limit: nat, p: seq<Byte>): Buffered {
    if b.truncated then b
    else if |b.contents| >= limit then b.(truncated := true)
    else if |p| > limit - |b.contents| then Buffered(b.contents + p[..limit - |b.contents|], true)
    else b.(contents := b.contents + p)
  }

  const DEFAULT_LIMIT := 1024

  class LimitedBuffer {
    var buf: seq<Byte>
    const limit: nat
    var truncated: bool

    constructor (limit: int)
      ensures this.limit == (if limit <= 0 then 1024 else limit) && this.limit > 0
      ensures State() == Buffered([], false)
    {
      this.limit := if limit <= 0 then DEFAULT_LIMIT else limit;
      buf, truncated := [], false;
    }

    ghost function State(): Buffered
      reads this
    {
      Buffered(buf, truncated)
    }

    /** Always reports the whole chunk as written, so that the producer never stops. */
    method Write(p: seq<Byte>) returns (n: nat)
      modifies this
      ensures n == |p| && State() == AfterWrite(old(State()), limit, p)
    {
      n := |p|;
      if truncated {
        return;
      }
      var remaining := limit - |buf|;
      if remaining <= 0 {
        truncated := true;
        return;
      }
      if |p| > remaining {
        buf := buf + p[..remaining];
        truncated := true;
        return;
      }
      buf := buf + p;
    }

    /** A whole build: chunks are written one after the other, empty ones are not written at all. */
    method WriteAll(chunks: seq<seq<Byte>>)
      requires State() == Buffered([], false) && limit > 0
      modifies this
      ensures buf == Prefix(Concat(chunks), limit)
      ensures truncated <==> |Concat(chunks)| > limit
    {
      ghost var written: seq<seq<Byte>> := [];
      for n := 0 to |chunks|
        invariant Concat(written) == Concat(chunks[..n])
        invariant State() == Run(limit, written)
        invariant forall k | 0 <= k < |written| :: written[k] != []
      {
        assert chunks[..n + 1][..n] == chunks[..n];
        if chunks[n] != [] {
          var _ := Write(chunks[n]);
          written := written + [chunks[n]];
          assert written[..|written| - 1] + [chunks[n]] == written;
        }
      }
      assert chunks[..|chunks|] == chunks;
      KeepsPrefix(limit, written);
      NonEmptyWritesTruncate(limit, written);
    }
  }

  function Concat(chunks: seq<seq<Byte>>): seq<Byte> {
    if chunks == [] then [] else Concat(chunks[..|chunks| - 1]) + chunks[|chunks| - 1]
  }

  function Prefix(s: seq<Byte>, limit: nat): seq<Byte> {
    if |s| <= limit then s else s[..limit]
  }

  /** The state after writing the chunks to an empty buffer. */
  function Run(limit: nat, chunks: seq<seq<Byte>>): Buffered {
    if chunks == [] then Buffered([], false)
    else AfterWrite(Run(limit, chunks[..|chunks| - 1]), limit, chunks[|chunks| - 1])
  }

  /** The contents are the first min(limit, total) bytes of the output, however it was cut into chunks. */
  lemma {:induction false} KeepsPrefix(limit: nat, chunks: seq<seq<Byte>>)
    ensures Run(limit, chunks).contents == Prefix(Concat(chunks), limit)
    ensures Run(limit, chunks).truncated ==> |Concat(chunks)| >= limit
  {
    if chunks != [] {
      KeepsPrefix(limit, chunks[..|chunks| - 1]);
    }
  }

  /** Some chunk, possibly an empty one, arrived when exactly `limit` bytes had been written. */
  ghost predicate ArrivedWhenFull(limit: nat, chunks: seq<seq<Byte>>) {
    exists k | 0 <= k < |chunks| :: |Concat(chunks[..k])| == limit
  }

  /** Exactly when the buffer claims to be truncated. */
  lemma {:induction false} TruncatedExactly(limit: nat, chunks: seq<seq<Byte>>)
    ensures Run(limit, chunks).truncated <==> |Concat(chunks)| > limit || ArrivedWhenFull(limit, chunks)
  {
    if chunks != [] {
      var n := |chunks| - 1;
      var init := chunks[..n];
      TruncatedExactly(limit, init);
      KeepsPrefix(limit, init);
      assert forall k | 0 <= k < n :: init[..k] == chunks[..k];
      if ArrivedWhenFull(limit, init) {
        var k :| 0 <= k < n && |Concat(init[..k])| == limit;
        assert |Concat(chunks[..k])| == limit;
      }
      if |Concat(init)| == limit {
        assert |Concat(chunks[..n])| == limit;
      }
    }
  }

  lemma {:induction false} ConcatGrows(chunks: seq<seq<Byte>>, k: nat)
    requires k < |chunks| && forall j | 0 <= j < |chunks| :: chunks[j] != []
    ensures |Concat(chunks[..k])| < |Concat(chunks)|
  {
    var n := |chunks| - 1;
    if k < n {
      assert chunks[..n][..k] == chunks[..k];
      ConcatGrows(chunks[..n], k);
    }
  }

  /** With non-empty writes the claim is exact: truncated means that bytes were lost. */
  lemma NonEmptyWritesTruncate(limit: nat, chunks: seq<seq<Byte>>)
    requires forall k | 0 <= k < |chunks| :: chunks[k] != []
    ensures Run(limit, chunks).truncated <==> |Concat(chunks)| > limit
  {
    TruncatedExactly(limit, chunks);
    if ArrivedWhenFull(limit, chunks) {
      var k :| 0 <= k < |chunks| && |Concat(chunks[..k])| == limit;
      ConcatGrows(chunks, k);
    }
  }
}
