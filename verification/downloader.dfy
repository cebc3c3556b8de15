/**
 * The downloader: a URL is either copied from the local file system or
 * fetched over HTTP; a remote file of at least 1 MiB is fetched by several
 * threads, each downloading one byte range into a part file, with retries;
 * the parts are then merged in order.
 */
module Downloader {
  import opened Wrappers
  import opened Utils

  const OneMiB: nat := 1024 * 1024
  const MaxThreads: nat := 4

  /** The thread count: the hardware concurrency, at least 1 and at most 4. */
  function NumThreads(hardwareConcurrency: nat): (r: nat)
    ensures 1 <= r <= MaxThreads
    ensures 1 <= hardwareConcurrency <= MaxThreads ==> r == hardwareConcurrency
    ensures hardwareConcurrency == 0 ==> r == 1
    ensures hardwareConcurrency > MaxThreads ==> r == MaxThreads
  {
    var atLeastOne := if hardwareConcurrency < 1 then 1 else hardwareConcurrency;
    if atLeastOne < MaxThreads then atLeastOne else MaxThreads
  }

  /** A file is fetched in one stream with one thread, or when it is under 1 MiB. */
  predicate UsesSingleStream(numThreads: int, fileSize: nat)
  {
    numThreads == 1 || (numThreads > 1 && fileSize < OneMiB)
  }

  /** With the thread count `NumThreads` chooses, a file is split exactly when there are several threads and it has at least 1 MiB. */
  lemma SingleStreamCases(hardwareConcurrency: nat, fileSize: nat)
    ensures var n := NumThreads(hardwareConcurrency);
      UsesSingleStream(n, fileSize) <==> n == 1 || fileSize < OneMiB
  {
  }

  /** The inclusive byte range `start`..`end` of the HTTP Range header. */
  datatype ByteRange = ByteRange(start: nat, end: nat)

  /** Ranges that tile `from`..`size - 1` in order. */
  ghost predicate Tiles(ranges: seq<ByteRange>, from: nat, size: nat)
  {
    (ranges == [] ==> from == size) &&
    (ranges != [] ==>
      ranges[0].start == from && ranges[|ranges| - 1].end + 1 == size &&
      (forall i :: 0 <= i < |ranges| ==> ranges[i].start <= ranges[i].end) &&
      (forall i :: 0 <= i < |ranges| - 1 ==> ranges[i + 1].start == ranges[i].end + 1))
  }

  /** Chunk `i` of `download_remote_file`'s loop. */
  function Chunk(fileSize: nat, numThreads: nat, chunkSize: nat, i: nat): ByteRange
    requires 1 <= chunkSize && i < numThreads && numThreads * chunkSize <= fileSize
  {
    MulMonotone(i, numThreads - 1, chunkSize);
    MulSucc(numThreads - 1, chunkSize);
    ByteRange(i * chunkSize, if i == numThreads - 1 then fileSize - 1 else i * chunkSize + chunkSize - 1)
  }

  lemma MulMonotone(a: nat, b: nat, c: nat)
    requires a <= b
    ensures a * c <= b * c
  {
  }

  lemma MulSucc(j: nat, c: nat)
    ensures (j + 1) * c == j * c + c
  {
  }

  /**
   * The range loop of `download_remote_file`: `numThreads` chunks of
   * `fileSize / numThreads` bytes, the last running to the end of the file
   * and so taking the remainder too. The thread count is the one
   * `NumThreads` chose.
   */
  method ChunkRanges(fileSize: nat, numThreads: nat) returns (ranges: seq<ByteRange>)
    requires 1 <= numThreads <= MaxThreads && !UsesSingleStream(numThreads, fileSize)
    ensures |ranges| == numThreads
    ensures Tiles(ranges, 0, fileSize)
    ensures forall i :: 0 <= i < |ranges| - 1 ==> ranges[i].end + 1 - ranges[i].start == fileSize / numThreads
    ensures ranges[|ranges| - 1].end + 1 - ranges[|ranges| - 1].start == fileSize / numThreads + fileSize % numThreads
  {
    var chunkSize := fileSize / numThreads;
    assert numThreads * chunkSize + fileSize % numThreads == fileSize;
    assert chunkSize >= 1;
    ranges := [];
    for i := 0 to numThreads
      invariant |ranges| == i
      invariant forall j :: 0 <= j < i ==> ranges[j] == Chunk(fileSize, numThreads, chunkSize, j)
    {
      MulMonotone(i, numThreads - 1, chunkSize);
      MulSucc(numThreads - 1, chunkSize);
      var start := i * chunkSize;
      var end := if i == numThreads - 1 then fileSize - 1 else start + chunkSize - 1;
      ranges := ranges + [ByteRange(start, end)];
    }
    forall j | 0 <= j < numThreads - 1
      ensures ranges[j + 1].start == ranges[j].end + 1
    {
      MulSucc(j, chunkSize);
    }
    MulSucc(numThreads - 1, chunkSize);
    assert ranges[0].start == 0;
  }

  /** The bytes of `content` each range selects: what each part file holds. */
  function Slices(content: seq<Byte>, ranges: seq<ByteRange>): (r: seq<seq<Byte>>)
    requires forall i :: 0 <= i < |ranges| ==> ranges[i].start <= ranges[i].end < |content|
    ensures |r| == |ranges|
  {
    if ranges == [] then []
    else [content[ranges[0].start..ranges[0].end + 1]] + Slices(content, ranges[1..])
  }

  lemma {:induction false} SlicesAt(content: seq<Byte>, ranges: seq<ByteRange>)
    requires forall i :: 0 <= i < |ranges| ==> ranges[i].start <= ranges[i].end < |content|
    ensures forall i :: 0 <= i < |ranges| ==> Slices(content, ranges)[i] == content[ranges[i].start..ranges[i].end + 1]
    decreases |ranges|
  {
    if ranges != [] {
      SlicesAt(content, ranges[1..]);
    }
  }

  lemma {:induction false} StartAtLeast(ranges: seq<ByteRange>, from: nat, size: nat, i: nat)
    requires ranges != [] && Tiles(ranges, from, size) && i < |ranges|
    ensures from <= ranges[i].start
    decreases i
  {
    if i > 0 {
      StartAtLeast(ranges, from, size, i - 1);
    }
  }

  lemma {:induction false} EndAtMost(ranges: seq<ByteRange>, from: nat, size: nat, i: nat)
    requires ranges != [] && Tiles(ranges, from, size) && i < |ranges|
    ensures ranges[i].end < size
    decreases |ranges| - i
  {
    if i < |ranges| - 1 {
      EndAtMost(ranges, from, size, i + 1);
    }
  }

  /** In a tiling every range lies inside `from`..`size - 1`. */
  lemma RangesInBounds(ranges: seq<ByteRange>, from: nat, size: nat)
    requires Tiles(ranges, from, size)
    ensures forall i :: 0 <= i < |ranges| ==> from <= ranges[i].start <= ranges[i].end < size
  {
    forall i | 0 <= i < |ranges|
      ensures from <= ranges[i].start <= ranges[i].end < size
    {
      StartAtLeast(ranges, from, size, i);
      EndAtMost(ranges, from, size, i);
    }
  }

  /** The ranges after the first tile the rest of the file. */
  lemma TilesTail(ranges: seq<ByteRange>, from: nat, size: nat)
    requires |ranges| >= 1 && Tiles(ranges, from, size)
    ensures Tiles(ranges[1..], ranges[0].end + 1, size)
  {
    var rest := ranges[1..];
    if rest != [] {
      forall i | 0 <= i < |rest| - 1
        ensures rest[i + 1].start == rest[i].end + 1
      {
        assert rest[i + 1] == ranges[i + 2] && rest[i] == ranges[i + 1];
      }
      assert rest[0] == ranges[1];
    }
  }

  /** The parts, one after another. */
  function Concat(parts: seq<seq<Byte>>): seq<Byte>
  {
    if parts == [] then [] else parts[0] + Concat(parts[1..])
  }

  lemma {:induction false} ConcatSnoc(parts: seq<seq<Byte>>, last: seq<Byte>)
    ensures Concat(parts + [last]) == Concat(parts) + last
    decreases |parts|
  {
    if parts == [] {
      assert Concat([last][1..]) == [];
    } else {
      assert (parts + [last])[1..] == parts[1..] + [last];
      ConcatSnoc(parts[1..], last);
    }
  }

  /** Part files holding ranges that tile the file from `from` on, merged in order, are that part of the file. */
  lemma {:induction false} SlicesTile(content: seq<Byte>, ranges: seq<ByteRange>, from: nat)
    requires from <= |content|
    requires Tiles(ranges, from, |content|)
    ensures forall i :: 0 <= i < |ranges| ==> ranges[i].start <= ranges[i].end < |content|
    ensures Concat(Slices(content, ranges)) == content[from..]
    decreases |ranges|
  {
    RangesInBounds(ranges, from, |content|);
    if ranges != [] {
      TilesTail(ranges, from, |content|);
      SlicesTile(content, ranges[1..], ranges[0].end + 1);
      assert Slices(content, ranges)[1..] == Slices(content, ranges[1..]);
      assert content[from..] == content[from..ranges[0].end + 1] + content[ranges[0].end + 1..];
    }
  }

  /**
   * The chunks of a large file, each part file holding its range, merged
   * in order, give back the whole file.
   */
  lemma ChunksRebuildFile(content: seq<Byte>, ranges: seq<ByteRange>, parts: seq<Option<seq<Byte>>>)
    requires Tiles(ranges, 0, |content|) && |parts| == |ranges|
    requires forall i :: 0 <= i < |ranges| ==> ranges[i].end < |content| && parts[i] == Some(content[ranges[i].start..ranges[i].end + 1])
    ensures Concat(seq(|parts|, i requires 0 <= i < |parts| => parts[i].GetOr([]))) == content
  {
    SlicesTile(content, ranges, 0);
    SlicesAt(content, ranges);
    assert seq(|parts|, i requires 0 <= i < |parts| => parts[i].GetOr([])) == Slices(content, ranges);
  }

  /**
   * The merge loop: each part file in turn is appended to the output;
   * a missing part (`None`) fails the download.
   */
  method MergeParts(parts: seq<Option<seq<Byte>>>) returns (r: Option<seq<Byte>>)
    ensures r.Some? <==> forall i :: 0 <= i < |parts| ==> parts[i].Some?
    ensures r.Some? ==> r.value == Concat(seq(|parts|, i requires 0 <= i < |parts| => parts[i].GetOr([])))
  {
    var full: seq<Byte> := [];
    ghost var merged: seq<seq<Byte>> := [];
    for i := 0 to |parts|
      invariant forall j :: 0 <= j < i ==> parts[j].Some?
      invariant merged == seq(i, j requires 0 <= j < i => parts[j].GetOr([]))
      invariant full == Concat(merged)
    {
      if parts[i].None? {
        return None;
      }
      ConcatSnoc(merged, parts[i].value);
      full := full + parts[i].value;
      merged := merged + [parts[i].value];
    }
    assert merged == seq(|parts|, j requires 0 <= j < |parts| => parts[j].GetOr([]));
    return Some(full);
  }

  // ---------------------------------------------------------------------
  // Retrying one chunk

  /** The index of the first of attempts `i`..`retry - 1` that succeeds, if any. */
  function FirstSuccess(succeeds: nat -> bool, i: nat, retry: nat): (r: Option<nat>)
    ensures r.Some? ==> i <= r.value < retry && succeeds(r.value) && forall k :: i <= k < r.value ==> !succeeds(k)
    ensures r.None? ==> forall k :: i <= k < retry ==> !succeeds(k)
    decreases retry - i
  {
    if i >= retry then None else if succeeds(i) then Some(i) else FirstSuccess(succeeds, i + 1, retry)
  }

  /** How a chunk's retry loop ends: whether the shared failure flag is up, and how many attempts were made. */
  datatype ChunkOutcome = ChunkOutcome(hasFailed: bool, attempts: nat)

  /**
   * `download_chunk` as written, from attempt `i`: every pass of the loop
   * either retries (`continue`) or returns, so the statement raising the
   * failure flag after the loop is reached only when `retry` is not
   * positive.
   */
  function ChunkAsWritten(retry: int, hasFailed: bool, succeeds: nat -> bool, i: nat): ChunkOutcome
    decreases if retry < i as int then 0 else retry - i
  {
    if i as int >= retry then ChunkOutcome(true, i)
    else if hasFailed then ChunkOutcome(hasFailed, i)
    else if succeeds(i) then ChunkOutcome(hasFailed, i + 1)
    else if i as int < retry - 1 then ChunkAsWritten(retry, hasFailed, succeeds, i + 1)
    else ChunkOutcome(hasFailed, i + 1)
  }

  /** A chunk all of whose five attempts fail leaves the failure flag down. */
  lemma ChunkAsWrittenHidesFailure()
    ensures ChunkAsWritten(5, false, _ => false, 0) == ChunkOutcome(false, 5)
  {
    var never: nat -> bool := _ => false;
    assert ChunkAsWritten(5, false, never, 4) == ChunkOutcome(false, 5);
    assert ChunkAsWritten(5, false, never, 3) == ChunkOutcome(false, 5);
    assert ChunkAsWritten(5, false, never, 2) == ChunkOutcome(false, 5);
    assert ChunkAsWritten(5, false, never, 1) == ChunkOutcome(false, 5);
  }

  /** The loop as written never raises the flag for a positive retry count. */
  lemma {:induction false} ChunkAsWrittenNeverFails(retry: int, succeeds: nat -> bool, i: nat)
    requires i as int < retry
    ensures !ChunkAsWritten(retry, false, succeeds, i).hasFailed
    decreases retry - i
  {
    if !succeeds(i) && i as int < retry - 1 {
      ChunkAsWrittenNeverFails(retry, succeeds, i + 1);
    }
  }

  /**
   * `download_chunk` as evidently intended: stop at the first successful
   * attempt; raise the failure flag once every attempt has failed; make no
   * attempt if another chunk has already failed.
   */
  function ChunkOutcomeOf(retry: nat, hasFailed: bool, succeeds: nat -> bool): (r: ChunkOutcome)
    ensures r.hasFailed <==> hasFailed || forall k :: 0 <= k < retry ==> !succeeds(k)
    ensures r.attempts <= retry
    ensures !r.hasFailed ==> r.attempts >= 1 && succeeds(r.attempts - 1)
  {
    if hasFailed then ChunkOutcome(true, 0)
    else match FirstSuccess(succeeds, 0, retry)
      case Some(k) => ChunkOutcome(false, k + 1)
      case None => ChunkOutcome(true, retry)
  }

  /**
   * The retry loop of one chunk, corrected; `succeeds(i)` stands for
   * whether attempt `i` gets the 206 answer, and `hasFailed` for the flag
   * the chunks share.
   */
  method DownloadChunk(retry: nat, hasFailed: bool, succeeds: nat -> bool) returns (r: ChunkOutcome)
    ensures r == ChunkOutcomeOf(retry, hasFailed, succeeds)
  {
    for i := 0 to retry
      invariant FirstSuccess(succeeds, 0, retry) == FirstSuccess(succeeds, i, retry)
      invariant i > 0 ==> !hasFailed
    {
      if hasFailed {
        return ChunkOutcome(true, 0);
      }
      if succeeds(i) {
        return ChunkOutcome(false, i + 1);
      }
    }
    if hasFailed {
      return ChunkOutcome(true, 0);
    }
    return ChunkOutcome(true, retry);
  }

  // ---------------------------------------------------------------------
  // URLs

  /** Where the host starts: after the first "://", or at the beginning. */
  function HostStart(url: string): (r: nat)
    ensures r <= |url|
  {
    match Find(url, "://", 0)
    case Some(p) => p + 3
    case None => 0
  }

  /**
   * The host and path of a URL: the text from the host's start to the
   * next '/', and the text after that '/'; `None` when no '/' follows.
   */
  function SplitHost(url: string): (r: Option<(string, string)>)
    ensures r.Some? <==> Find(url, "/", HostStart(url)).Some?
  {
    match Find(url, "/", HostStart(url))
    case Some(pos) => Some((url[HostStart(url)..pos], url[pos + 1..]))
    case None => None
  }

  /**
   * `ParseFileUrl`: the host runs from after "://" to the next '/', the
   * path is what follows that '/'; with no such '/' both out-parameters
   * keep what they held. It always returns true.
   */
  method ParseFileUrl(fileUrl: string, hostName0: string, hostFilePath0: string)
    returns (ok: bool, hostName: string, hostFilePath: string)
    ensures ok
    ensures (hostName, hostFilePath) == SplitHost(fileUrl).GetOr((hostName0, hostFilePath0))
    ensures Find(fileUrl, "/", HostStart(fileUrl)).Some? ==>
      fileUrl == fileUrl[..HostStart(fileUrl)] + hostName + "/" + hostFilePath && '/' !in hostName
    ensures Find(fileUrl, "/", HostStart(fileUrl)).None? ==>
      hostName == hostName0 && hostFilePath == hostFilePath0 && '/' !in fileUrl[HostStart(fileUrl)..]
  {
    var startPos := HostStart(fileUrl);
    var found := Find(fileUrl, "/", startPos);
    ok, hostName, hostFilePath := true, hostName0, hostFilePath0;
    if found.Some? {
      var pos := found.value;
      hostName := fileUrl[startPos..pos];
      hostFilePath := fileUrl[pos + 1..];
      assert fileUrl[pos..pos + 1] == "/";
      SplitAround(fileUrl, startPos, pos);
      forall k | 0 <= k < |hostName|
        ensures hostName[k] != '/'
      {
        assert !OccursAt(fileUrl, "/", startPos + k);
        assert fileUrl[startPos + k..startPos + k + 1] == [hostName[k]];
      }
    } else {
      forall k | 0 <= k < |fileUrl| - startPos
        ensures fileUrl[startPos..][k] != '/'
      {
        assert !OccursAt(fileUrl, "/", startPos + k);
        assert fileUrl[startPos + k..startPos + k + 1] == [fileUrl[startPos..][k]];
      }
    }
  }

  lemma SplitAround(s: string, a: nat, b: nat)
    requires a <= b < |s|
    ensures s == s[..a] + s[a..b] + s[b..b + 1] + s[b + 1..]
  {
    assert s[..b] == s[..a] + s[a..b];
    assert s[b..] == s[b..b + 1] + s[b + 1..];
    assert s == s[..b] + s[b..];
  }

  predicate StartsWith(s: string, prefix: string)
  {
    |prefix| <= |s| && s[..|prefix|] == prefix
  }

  /** Where `operator()` sends a URL. */
  datatype Route =
    | CopyLocal(sourcePath: string)
    | Remote(hostName: string, hostFilePath: string)

  /**
   * `operator()`'s routing: "file://" URLs are copied from the path after
   * the scheme, any other URL that is not http(s) is copied as it is, and
   * an http(s) URL is fetched from its host with the path given a leading
   * '/'.
   */
  method RouteUrl(fileUrl: string) returns (r: Route)
    ensures StartsWith(fileUrl, "file://") ==> r == CopyLocal(fileUrl[7..])
    ensures !StartsWith(fileUrl, "file://") && !StartsWith(fileUrl, "http://") && !StartsWith(fileUrl, "https://") ==>
      r == CopyLocal(fileUrl)
    ensures r.Remote? <==> !StartsWith(fileUrl, "file://") && (StartsWith(fileUrl, "http://") || StartsWith(fileUrl, "https://"))
    ensures r.Remote? ==> r.hostFilePath == [] || r.hostFilePath[0] == '/'
    ensures r.Remote? ==> '/' !in r.hostName
    ensures r.Remote? ==>
      var (h, p) := SplitHost(fileUrl).GetOr(("", ""));
      r == Remote(h, if p == [] || p[0] == '/' then p else "/" + p)
  {
    if StartsWith(fileUrl, "file://") {
      return CopyLocal(fileUrl[7..]);
    }
    if !StartsWith(fileUrl, "http://") && !StartsWith(fileUrl, "https://") {
      return CopyLocal(fileUrl);
    }
    var ok, hostName, hostFilePath := ParseFileUrl(fileUrl, "", "");
    if hostFilePath != [] && hostFilePath[0] != '/' {
      hostFilePath := "/" + hostFilePath;
    }
    return Remote(hostName, hostFilePath);
  }
}
