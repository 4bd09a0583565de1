/** Zip uploads: the header checks, and the bytes extraction can put on disk whatever the headers claim. */
module ZipExtraction {
  import opened GoText
  import opened PathJoining

  type Uint64 = n: int | 0 <= n < UINT64

  const MAX_ENTRIES := 2000
  const MAX_FILE_BYTES := 100 * 1024 * 1024
  const MAX_TOTAL_BYTES := 500 * 1024 * 1024
  const MAX_RATIO := 100

  /** An archive entry: what its header claims, what it really holds, and which disk operations succeed for it.
      `readFails` is the number of bytes after which reading it fails, if it does. */
  datatype ZipEntry = ZipEntry(
    name: string, isDir: bool, isSymlink: bool, compressed: Uint64, uncompressed: Uint64,
    data: nat, opens: bool, creates: bool, readFails: Option<nat>)

  // The header checks.

  predicate HeaderOk(e: ZipEntry) {
    e.name != "" && '\0' !in e.name && ':' !in e.name && !e.isSymlink
    && (!e.isDir ==> e.uncompressed <= MAX_FILE_BYTES)
    && (e.compressed > 0 && e.uncompressed > 1024 * 1024 ==> e.uncompressed / e.compressed <= MAX_RATIO)
  }

  /** Which headers are refused: no name, a NUL or a colon in it, a symbolic link, a file over 100 MiB, and more than
      1 MiB squeezed into less than one part in 101. */
  lemma HeaderRefused(e: ZipEntry)
    ensures !HeaderOk(e) <==>
            e.name == "" || '\0' in e.name || ':' in e.name || e.isSymlink
            || (!e.isDir && e.uncompressed > 104_857_600)
            || (e.compressed > 0 && e.uncompressed > 1_048_576 && e.uncompressed >= 101 * e.compressed)
    ensures HeaderOk(e) ==> PlainHeader(e)
  {
    if e.compressed > 0 {
      QuotientBound(e.uncompressed, e.compressed);
    }
  }

  lemma QuotientBound(u: nat, c: nat)
    requires c > 0
    ensures u / c <= 100 <==> u < 101 * c
  {
    assert u == (u / c) * c + u % c;
    if u / c <= 100 {
      assert (u / c) * c <= 100 * c;
    } else {
      assert (u / c) * c >= 101 * c;
    }
  }

  /** The claimed sizes added up in 64 bits, and truly. */
  function WrappedSum(files: seq<ZipEntry>): Uint64 {
    if files == [] then 0 else (WrappedSum(files[..|files| - 1]) + files[|files| - 1].uncompressed) % UINT64
  }

  function TrueSum(files: seq<ZipEntry>): nat {
    if files == [] then 0 else TrueSum(files[..|files| - 1]) + files[|files| - 1].uncompressed
  }

  ghost predicate Accepted(files: seq<ZipEntry>) {
    |files| <= MAX_ENTRIES
    && (forall k | 0 <= k < |files| :: HeaderOk(files[k]))
    && (forall k | 0 <= k <= |files| :: WrappedSum(files[..k]) <= MAX_TOTAL_BYTES)
  }

  lemma NothingSums()
    ensures WrappedSum([]) == 0
  {
  }

  /** A named entry that is no link and, unless it is a directory, claims at most 100 MiB. */
  predicate PlainHeader(e: ZipEntry) {
    !e.isSymlink && e.name != "" && (e.isDir || e.uncompressed <= 104_857_600)
  }

  method ValidateZipArchive(files: seq<ZipEntry>) returns (ok: bool, total: Uint64)
    ensures ok <==> Accepted(files)
    ensures ok ==> total == WrappedSum(files) && total <= 524_288_000 && |files| <= 2000
    ensures ok ==> forall k | 0 <= k < |files| :: PlainHeader(files[k])
  {
    hide HeaderOk, WrappedSum, PlainHeader;
    assert WrappedSum([]) == 0 by { NothingSums(); }
    total := 0;
    if |files| > MAX_ENTRIES {
      return false, total;
    }
    for n := 0 to |files|
      invariant total == WrappedSum(files[..n])
      invariant forall k | 0 <= k < n :: HeaderOk(files[k])
      invariant forall k | 0 <= k <= n :: WrappedSum(files[..k]) <= MAX_TOTAL_BYTES
    {
      if !HeaderOk(files[n]) {
        return false, total;
      }
      NextSum(files, n);
      total := (total + files[n].uncompressed) % UINT64;
      if total > MAX_TOTAL_BYTES {
        return false, total;
      }
    }
    assert files[..|files|] == files;
    forall k | 0 <= k < |files|
      ensures PlainHeader(files[k])
    {
      HeaderRefused(files[k]);
    }
    ok := true;
  }

  lemma NextSum(files: seq<ZipEntry>, n: nat)
    requires n < |files|
    ensures WrappedSum(files[..n + 1]) == (WrappedSum(files[..n]) + files[n].uncompressed) % UINT64
  {
    assert files[..n + 1][..n] == files[..n];
  }

  lemma {:induction false} EntryInTrueSum(files: seq<ZipEntry>, k: nat)
    requires k < |files|
    ensures files[k].uncompressed <= TrueSum(files)
  {
    if k < |files| - 1 {
      EntryInTrueSum(files[..|files| - 1], k);
    }
  }

  lemma {:induction false} SmallEntriesDoNotWrap(files: seq<ZipEntry>)
    requires forall k | 0 <= k <= |files| :: WrappedSum(files[..k]) <= MAX_TOTAL_BYTES
    requires forall k | 0 <= k < |files| :: files[k].uncompressed <= MAX_TOTAL_BYTES
    ensures WrappedSum(files) == TrueSum(files)
  {
    if files != [] {
      var init := files[..|files| - 1];
      assert forall k | 0 <= k <= |init| :: init[..k] == files[..k];
      SmallEntriesDoNotWrap(init);
      assert init[..|init|] == init;
    }
  }

  /** The sum of an accepted archive is the true sum exactly when no entry claims more than the total limit.
      Only a directory can: files are held to the smaller per-file limit. */
  lemma AcceptedSumIsTrueIff(files: seq<ZipEntry>)
    requires Accepted(files)
    ensures WrappedSum(files) == TrueSum(files) <==>
            forall k | 0 <= k < |files| && files[k].isDir :: files[k].uncompressed <= MAX_TOTAL_BYTES
  {
    assert files[..|files|] == files;
    if forall k | 0 <= k < |files| && files[k].isDir :: files[k].uncompressed <= MAX_TOTAL_BYTES {
      forall k | 0 <= k < |files|
        ensures files[k].uncompressed <= MAX_TOTAL_BYTES
      {
        assert HeaderOk(files[k]);
      }
      SmallEntriesDoNotWrap(files);
    } else {
      var k :| 0 <= k < |files| && files[k].isDir && files[k].uncompressed > MAX_TOTAL_BYTES;
      EntryInTrueSum(files, k);
    }
  }

  /** Two entries that pass although they claim 2^64 bytes: a directory's size is not limited, and the sum wraps. */
  lemma DirectorySizeWraps() returns (files: seq<ZipEntry>)
    ensures Accepted(files) && TrueSum(files) == UINT64 && WrappedSum(files) == 0
  {
    var f := ZipEntry("f", false, false, 0, 1, 1, true, true, None);
    var d := ZipEntry("d/", true, false, 0, UINT64 - 1, 0, true, true, None);
    files := [f, d];
    assert files[..0] == [] && files[..1] == [f] && files[..2] == files;
    assert [f][..|[f]| - 1] == [] && files[..|files| - 1] == [f];
    assert TrueSum([f]) == TrueSum([]) + 1 && TrueSum(files) == TrueSum([f]) + UINT64 - 1;
    assert WrappedSum([f]) == (WrappedSum([]) + 1) % UINT64;
    assert HeaderOk(f) && HeaderOk(d);
  }

  // Extraction.

  /** Total size of the files on disk. */
  ghost function SumOver(sizes: map<string, nat>, keys: set<string>): nat
    requires keys <= sizes.Keys
  {
    if keys == {} then 0
    else
      var k :| k in keys;
      sizes[k] + SumOver(sizes, keys - {k})
  }

  ghost function OnDisk(sizes: map<string, nat>): nat {
    SumOver(sizes, sizes.Keys)
  }

  lemma {:induction false} SumSplits(sizes: map<string, nat>, keys: set<string>, x: string)
    requires keys <= sizes.Keys && x in keys
    ensures SumOver(sizes, keys) == sizes[x] + SumOver(sizes, keys - {x})
    decreases keys
  {
    var k :| k in keys && SumOver(sizes, keys) == sizes[k] + SumOver(sizes, keys - {k});
    if k != x {
      SumSplits(sizes, keys - {k}, x);
      SumSplits(sizes, keys - {x}, k);
      assert keys - {k} - {x} == keys - {x} - {k};
    }
  }

  lemma {:induction false} SumDependsOnKeys(a: map<string, nat>, b: map<string, nat>, keys: set<string>)
    requires keys <= a.Keys && keys <= b.Keys && forall k | k in keys :: a[k] == b[k]
    ensures SumOver(a, keys) == SumOver(b, keys)
    decreases keys
  {
    if keys != {} {
      var k :| k in keys && SumOver(a, keys) == a[k] + SumOver(a, keys - {k});
      SumSplits(b, keys, k);
      SumDependsOnKeys(a, b, keys - {k});
    }
  }

  /** Replacing a file adds its new size and frees its old one. */
  lemma SizeAfterWrite(sizes: map<string, nat>, path: string, size: nat)
    ensures OnDisk(sizes[path := size]) == OnDisk(sizes - {path}) + size
    ensures OnDisk(sizes - {path}) <= OnDisk(sizes)
  {
    var after := sizes[path := size];
    SumSplits(after, after.Keys, path);
    assert after.Keys - {path} == (sizes - {path}).Keys;
    SumDependsOnKeys(after, sizes - {path}, (sizes - {path}).Keys);
    if path in sizes {
      SumSplits(sizes, sizes.Keys, path);
      assert sizes.Keys - {path} == (sizes - {path}).Keys;
      SumDependsOnKeys(sizes, sizes - {path}, (sizes - {path}).Keys);
    } else {
      assert sizes - {path} == sizes;
    }
  }

  function Min(a: nat, b: nat): nat {
    if a < b then a else b
  }

  const COPY_LIMIT := MAX_FILE_BYTES + 1

  /** Reading the entry fails before the copy reaches its limit; a bad checksum shows up after the last byte. */
  predicate CopyFails(e: ZipEntry) {
    e.readFails.Some? && e.readFails.value <= Min(e.data, COPY_LIMIT - 1)
  }

  /** The bytes the copy puts on disk, one past the per-file limit at most. */
  function Copied(e: ZipEntry): nat {
    if CopyFails(e) then e.readFails.value else Min(e.data, COPY_LIMIT)
  }

  predicate FileArrives(e: ZipEntry) {
    e.opens && e.creates && !CopyFails(e) && e.data <= MAX_FILE_BYTES
  }

  /** Sizes on disk once these entries have been extracted. */
  function Extracted(dest: string, files: seq<ZipEntry>): map<string, nat> {
    if files == [] then map[]
    else
      var before := Extracted(dest, files[..|files| - 1]);
      var last := files[|files| - 1];
      if last.isDir || SafeJoin(dest, last.name).None? then before
      else before[SafeJoin(dest, last.name).value := last.data]
  }

  /** The real bytes of the files in an archive. */
  function FileBytes(files: seq<ZipEntry>): nat {
    if files == [] then 0
    else FileBytes(files[..|files| - 1]) + if files[|files| - 1].isDir then 0 else files[|files| - 1].data
  }

  predicate Extractable(dest: string, e: ZipEntry) {
    SafeJoin(dest, e.name).Some? && if e.isDir then e.creates else FileArrives(e)
  }

  lemma ResolvedIsBelow(dest: string, name: string)
    requires SafeJoin(dest, name).Some?
    ensures Below(dest, SafeJoin(dest, name).value)
  {
    hide SafeJoin;
    var names := AcceptedStaysBelow(dest, name);
  }

  lemma ExtractedStep(dest: string, files: seq<ZipEntry>, n: nat)
    requires n < |files| && Extractable(dest, files[n])
    ensures Extracted(dest, files[..n + 1]) ==
            if files[n].isDir then Extracted(dest, files[..n])
            else Extracted(dest, files[..n])[SafeJoin(dest, files[n].name).value := files[n].data]
  {
    hide SafeJoin;
    assert files[..n + 1][..n] == files[..n];
  }

  lemma {:induction false} FileBytesGrow(files: seq<ZipEntry>, n: nat)
    requires n <= |files|
    ensures FileBytes(files[..n]) <= FileBytes(files)
  {
    if n == |files| {
      assert files[..n] == files;
    } else {
      var init := files[..|files| - 1];
      assert init[..n] == files[..n];
      FileBytesGrow(init, n);
    }
  }

  class Extraction {
    var sizes: map<string, nat>
    var total: Uint64
    /** The most that was ever on disk. */
    ghost var peak: nat

    constructor ()
      ensures sizes == map[] && total == 0 && peak == 0
    {
      sizes, total, peak := map[], 0, 0;
    }

    /** What holds after success and failure alike. */
    ghost predicate Safe(dest: string)
      reads this
    {
      OnDisk(sizes) <= MAX_TOTAL_BYTES
      && peak <= MAX_TOTAL_BYTES + COPY_LIMIT
      && forall path | path in sizes :: Below(dest, path)
    }

    ghost predicate Counted()
      reads this
    {
      OnDisk(sizes) <= total <= MAX_TOTAL_BYTES
    }

    /** Writes a file; the copy only grows, so the peak is reached at its end. */
    method Put(path: string, size: nat)
      modifies this`sizes, this`peak
      ensures sizes == old(sizes)[path := size]
      ensures peak == if OnDisk(sizes) > old(peak) then OnDisk(sizes) else old(peak)
      ensures OnDisk(sizes) <= OnDisk(old(sizes)) + size
      ensures OnDisk(sizes - {path}) <= OnDisk(old(sizes))
    {
      hide SumOver;
      SizeAfterWrite(sizes, path, size);
      assert sizes[path := size] - {path} == sizes - {path};
      sizes := sizes[path := size];
      if OnDisk(sizes) > peak {
        peak := OnDisk(sizes);
      }
    }

    method Remove(path: string)
      modifies this`sizes
      ensures sizes == old(sizes) - {path}
    {
      sizes := sizes - {path};
    }

    /** The copy into an open file: any failure removes what was written. */
    method CopyInto(e: ZipEntry, dest: string, path: string) returns (ok: bool)
      requires Safe(dest) && Counted() && Below(dest, path)
      modifies this
      ensures Safe(dest)
      ensures ok <==> !CopyFails(e) && e.data <= MAX_FILE_BYTES && old(total) + e.data <= MAX_TOTAL_BYTES
      ensures ok ==> Counted() && total == old(total) + e.data && sizes == old(sizes)[path := e.data]
      ensures !ok ==> sizes == old(sizes) - {path}
    {
      hide Below, SumOver, OnDisk;
      var written := Copied(e);
      Put(path, written);
      assert sizes - {path} == old(sizes) - {path};
      if CopyFails(e) || written > MAX_FILE_BYTES {
        Remove(path);
        return false;
      }
      total := (total + written) % UINT64;
      if total > MAX_TOTAL_BYTES {
        Remove(path);
        return false;
      }
      ok := true;
    }

    method ExtractZipFile(e: ZipEntry, dest: string) returns (ok: bool)
      requires Safe(dest) && Counted()
      modifies this
      ensures Safe(dest)
      ensures ok <==> Extractable(dest, e) && (e.isDir || old(total) + e.data <= MAX_TOTAL_BYTES)
      ensures ok ==> Counted()
      ensures ok && e.isDir ==> sizes == old(sizes) && total == old(total)
      ensures ok && !e.isDir ==>
                total == old(total) + e.data && sizes == old(sizes)[SafeJoin(dest, e.name).value := e.data]
    {
      hide SafeJoin, Below, SumOver, OnDisk;
      var joined := SafeJoin(dest, e.name);
      if joined.None? {
        return false;
      }
      if e.isDir {
        return e.creates;
      }
      if !e.opens || !e.creates {
        return false;
      }
      ResolvedIsBelow(dest, e.name);
      ok := CopyInto(e, dest, joined.value);
    }

    /** Whatever the headers claim, extraction leaves at most the total limit on disk and is never more than one
        file's limit plus a byte above it. It succeeds exactly when the archive is accepted, every entry can be
        extracted and the real bytes fit; the 64-bit total is then the true one. */
    method ExtractZip(files: seq<ZipEntry>, dest: string) returns (ok: bool)
      requires sizes == map[] && total == 0 && peak == 0
      modifies this
      ensures Safe(dest) && OnDisk(sizes) <= 524_288_000 && peak <= 524_288_000 + 104_857_601
      ensures ok <==> Accepted(files) && (forall k | 0 <= k < |files| :: Extractable(dest, files[k]))
                      && FileBytes(files) <= MAX_TOTAL_BYTES
      ensures ok ==> sizes == Extracted(dest, files) && total == FileBytes(files)
      ensures !Accepted(files) ==> sizes == map[]
    {
      hide SafeJoin, Below, Accepted, Extractable;
      var accepted, claimed := ValidateZipArchive(files);
      if !accepted {
        return false;
      }
      for n := 0 to |files|
        invariant Safe(dest) && Counted()
        invariant sizes == Extracted(dest, files[..n]) && total == FileBytes(files[..n])
        invariant forall k | 0 <= k < n :: Extractable(dest, files[k])
      {
        hide OnDisk, SumOver;
        assert files[..n + 1][..n] == files[..n];
        FileBytesGrow(files, n + 1);
        ok := ExtractZipFile(files[n], dest);
        if !ok {
          return;
        }
        ExtractedStep(dest, files, n);
      }
      assert files[..|files|] == files;
      ok := true;
    }
  }
}
