/** Uploading in numbered parts and downloading in byte ranges. */
module Transfer {
  import opened Common

  type byte = b: int | 0 <= b < 256

  // ── parts ──────────────────────────────────────────────────────────────────

  datatype Part = Part(number: nat, total: nat, bytes: seq<byte>)

  /** The file a server puts together from parts in order. */
  function Join(parts: seq<Part>): seq<byte> {
    if parts == [] then [] else Join(parts[..|parts| - 1]) + parts[|parts| - 1].bytes
  }

  function CeilDiv(a: nat, b: nat): nat
    requires b > 0
  {
    (a + b - 1) / b
  }

  function PartCount(size: nat, chunk: nat): nat
    requires chunk > 0
  {
    Max(1, CeilDiv(size, chunk))
  }

  /** The count is the least that covers the data, and at least one. */
  lemma PartCountIsLeast(size: nat, chunk: nat)
    requires chunk > 0
    ensures Covers(PartCount(size, chunk), chunk, size)
  {
    var q, r := (size + chunk - 1) / chunk, (size + chunk - 1) % chunk;
    assert size + chunk - 1 == q * chunk + r;
    if q > 1 {
      Distributes(q - 1, chunk);
    } else {
      Multiplies(q, 1, chunk);
    }
  }

  /** After `n` answers the hash is that of the last answer that had one, or still the initial one. */
  ghost predicate LastAnswered(initial: string, answer: nat -> string, n: nat, hash: string) {
    || (hash == initial && forall k :: 1 <= k <= n ==> answer(k) == "")
    || (exists k :: 1 <= k <= n && answer(k) != "" && hash == answer(k) && forall l :: k < l <= n ==> answer(l) == "")
  }

  ghost predicate WellCut(parts: seq<Part>, total: nat, chunk: nat, sent: nat)
  {
    && (forall i :: 0 <= i < |parts| ==> parts[i].number == i + 1 && parts[i].total == total && |parts[i].bytes| <= chunk)
    && (forall i :: 0 <= i < |parts| - 1 ==> |parts[i].bytes| == chunk)
    && |Join(parts)| == sent
  }

  lemma JoinSnoc(parts: seq<Part>, p: Part)
    ensures Join(parts + [p]) == Join(parts) + p.bytes
  {
    assert (parts + [p])[..|parts|] == parts;
  }

  datatype Failure = RequestFailed

  /** The parts sent are numbered from 1, all but the last are full, and they are the beginning of the data; unless
      one fails for good, which ends the upload, they are all of it. `answer` gives the access hash in the answer to
      a part, `fails` says which parts fail. */
  method UploadFile(data: seq<byte>, chunkSize: nat, accessHash: string, answer: nat -> string, fails: nat -> bool)
    returns (r: Result<string, Failure>, parts: seq<Part>)
    requires chunkSize > 0
    ensures var total := PartCount(|data|, chunkSize);
      |parts| <= total && WellCut(parts, total, chunkSize, |Join(parts)|) && Join(parts) <= data
    ensures r.Ok? ==> |parts| == PartCount(|data|, chunkSize) && Join(parts) == data
    ensures r.Ok? ==>
      || (r.value == accessHash && forall k :: 1 <= k <= |parts| ==> answer(k) == "")
      || (exists k :: 1 <= k <= |parts| && answer(k) != "" && r.value == answer(k) && forall l :: k < l <= |parts| ==> answer(l) == "")
    ensures r.Err? <==> |parts| > 0 && fails(|parts|)
    ensures forall k :: 1 <= k < |parts| ==> !fails(k)
  {
    var totalParts := PartCount(|data|, chunkSize);
    SentNone(data, chunkSize);
    hide PartCount, Sent, WellCut, Join;
    parts := [];
    var accessHashRec, position := accessHash, 0;
    for index := 0 to totalParts
      invariant |parts| == index && Sent(parts, data, chunkSize, position)
      invariant LastAnswered(accessHash, answer, index, accessHashRec)
      invariant forall k :: 1 <= k <= index ==> !fails(k)
    {
      SentBound(parts, data, chunkSize, position);
      var end := Min(position + chunkSize, |data|);
      var part := Part(index + 1, totalParts, data[position..end]);
      SentMore(parts, data, chunkSize, position, end, part);
      parts := parts + [part];
      if fails(index + 1) {
        SentIs(parts, data, chunkSize, end);
        return Err(RequestFailed), parts;
      }
      if answer(index + 1) != "" {
        accessHashRec := answer(index + 1);
      }
      position := end;
    }
    SentIs(parts, data, chunkSize, position);
    return Ok(accessHashRec), parts;
  }

  /** After some parts: they are well cut and hold the data up to the stream's position. */
  ghost predicate Sent(parts: seq<Part>, data: seq<byte>, chunk: nat, position: nat)
    requires chunk > 0
  {
    var total := PartCount(|data|, chunk);
    && |parts| <= total && position == Position(|parts|, chunk, |data|)
    && WellCut(parts, total, chunk, position)
    && (|parts| < total ==> forall i :: 0 <= i < |parts| ==> |parts[i].bytes| == chunk)
    && Join(parts) == data[..position]
  }

  lemma SentNone(data: seq<byte>, chunk: nat)
    requires chunk > 0
    ensures Sent([], data, chunk, 0)
  {
    PartCountIsLeast(|data|, chunk);
    PositionMoves(0, PartCount(|data|, chunk), chunk, |data|);
  }

  lemma SentBound(parts: seq<Part>, data: seq<byte>, chunk: nat, position: nat)
    requires chunk > 0 && Sent(parts, data, chunk, position)
    ensures position <= |data|
  {
  }

  lemma SentMore(parts: seq<Part>, data: seq<byte>, chunk: nat, position: nat, end: nat, part: Part)
    requires chunk > 0 && Sent(parts, data, chunk, position) && |parts| < PartCount(|data|, chunk)
    requires position <= end == Min(position + chunk, |data|)
    requires part == Part(|parts| + 1, PartCount(|data|, chunk), data[position..end])
    ensures Sent(parts + [part], data, chunk, end)
  {
    var total := PartCount(|data|, chunk);
    PartCountIsLeast(|data|, chunk);
    PositionMoves(|parts|, total, chunk, |data|);
    WellCutSnoc(parts, part, total, chunk);
    JoinSnoc(parts, part);
    hide Position, PartCount, Covers, WellCut, Join;
    assert data[..position] + part.bytes == data[..end];
  }

  lemma SentIs(parts: seq<Part>, data: seq<byte>, chunk: nat, position: nat)
    requires chunk > 0 && Sent(parts, data, chunk, position)
    ensures WellCut(parts, PartCount(|data|, chunk), chunk, |Join(parts)|) && Join(parts) <= data
    ensures |parts| <= PartCount(|data|, chunk)
    ensures |parts| == PartCount(|data|, chunk) ==> Join(parts) == data
  {
    PartCountIsLeast(|data|, chunk);
    PositionMoves(0, PartCount(|data|, chunk), chunk, |data|);
  }

  lemma WellCutSnoc(parts: seq<Part>, p: Part, total: nat, chunk: nat)
    requires WellCut(parts, total, chunk, |Join(parts)|) && forall i :: 0 <= i < |parts| ==> |parts[i].bytes| == chunk
    requires p.number == |parts| + 1 && p.total == total && |p.bytes| <= chunk
    ensures WellCut(parts + [p], total, chunk, |Join(parts)| + |p.bytes|)
  {
    JoinSnoc(parts, p);
  }

  /** `n` parts cover the data, and fewer would not. */
  ghost predicate Covers(n: nat, chunk: nat, size: nat) {
    n >= 1 && n * chunk >= size && (n == 1 || (n - 1) * chunk < size)
  }

  /** Where the stream stands before part `index`. */
  function Position(index: nat, chunk: nat, size: nat): nat {
    Min(index * chunk, size)
  }

  lemma PositionMoves(index: nat, n: nat, chunk: nat, size: nat)
    requires index < n && Covers(n, chunk, size)
    ensures Position(0, chunk, size) == 0 && Position(n, chunk, size) == size
    ensures Position(index + 1, chunk, size) == Min(Position(index, chunk, size) + chunk, size)
    ensures index + 1 < n ==> Position(index + 1, chunk, size) == Position(index, chunk, size) + chunk
  {
    Distributes(index, chunk);
    if index + 1 < n {
      Multiplies(index + 1, n - 1, chunk);
    }
  }

  lemma Distributes(i: nat, chunk: nat)
    ensures (i + 1) * chunk == i * chunk + chunk && 0 * chunk == 0
  {
  }

  lemma Multiplies(i: nat, j: nat, chunk: nat)
    requires i <= j
    ensures i * chunk <= j * chunk
  {
  }

  // ── ranges ─────────────────────────────────────────────────────────────────

  /** A server that answers an inclusive range with the bytes of it that exist. */
  function Answer(file: seq<byte>, start: nat, last: int): seq<byte> {
    if start >= |file| || last < start then [] else file[start..Min(last + 1, |file|)]
  }

  /** How much of a file of this size a download returns: a size given by the caller, other than zero, cuts it. */
  function Wanted(claimed: Option<int>, size: nat): nat {
    if claimed.None? || claimed.value == 0 then size else Min(Max(0, claimed.value), size)
  }

  /** The ranges asked for follow one another from the start of the file, and none begins behind its end. */
  ghost predicate Consecutive(starts: seq<nat>, chunk: nat, size: nat) {
    && (starts != [] ==> starts[0] == 0)
    && (forall k :: 0 < k < |starts| ==> starts[k] == starts[k - 1] + chunk)
    && (forall k :: 0 <= k < |starts| ==> starts[k] <= size)
  }

  lemma {:induction false} RequestsAreFew(starts: seq<nat>, chunk: nat, size: nat)
    requires chunk > 0 && Consecutive(starts, chunk, size)
    ensures |starts| <= size / chunk + 1
  {
    if starts != [] {
      var n := |starts| - 1;
      StartsAre(starts, chunk, size, n);
      Quotient(n, chunk, size);
    }
  }

  lemma Quotient(n: nat, chunk: nat, size: nat)
    requires chunk > 0 && n * chunk <= size
    ensures n <= size / chunk
  {
    var q := size / chunk;
    assert size < q * chunk + chunk;
    Distributes(q, chunk);
    if n > q {
      Multiplies(q + 1, n, chunk);
    }
  }

  lemma {:induction false} StartsAre(starts: seq<nat>, chunk: nat, size: nat, k: nat)
    requires Consecutive(starts, chunk, size) && k < |starts|
    ensures starts[k] == k * chunk
  {
    if k > 0 {
      StartsAre(starts, chunk, size, k - 1);
    }
  }

  lemma NoneYet(chunk: nat, size: nat)
    ensures Consecutive([], chunk, size)
  {
  }

  /** What the loop knows of the total: nothing, the caller's size, or the file's. */
  ghost predicate Honest(total: Option<int>, claimed: Option<int>, size: nat) {
    && (total.None? ==> claimed.None? || claimed.value == 0)
    && (total.Some? ==> Wanted(claimed, size) == Min(Max(0, total.value), size))
  }

  lemma AnswerExtends(file: seq<byte>, start: nat, last: int)
    requires start <= |file|
    ensures var chunk := Answer(file, start, last);
      && file[..start] + chunk == file[..start + |chunk|]
      && |chunk| == Max(0, Min(last + 1, |file|) - start)
  {
  }

  lemma OneMore(starts: seq<nat>, chunk: nat, size: nat, start: nat)
    requires Consecutive(starts, chunk, size) && start <= size
    requires start == if starts == [] then 0 else starts[|starts| - 1] + chunk
    ensures Consecutive(starts + [start], chunk, size)
  {
  }

  /** The range loop. `tells` says in which answers the server names the file's length, `fails` which requests
      fail for good. */
  method DownloadFile(file: seq<byte>, chunkSize: nat, claimed: Option<int>, tells: nat -> bool, fails: nat -> bool)
    returns (r: Result<seq<byte>, Failure>, starts: seq<nat>)
    requires chunkSize > 0
    ensures r.Ok? ==>
      r.value == if claimed.None? || claimed.value == 0 then file else file[..Min(Max(0, claimed.value), |file|)]
    ensures r.Err? <==> exists k :: 0 <= k < |starts| && fails(starts[k])
    ensures Consecutive(starts, chunkSize, |file|)
  {
    hide Answer, Consecutive;
    NoneYet(chunkSize, |file|);
    var content: seq<byte>, start := [], 0;
    var total := if claimed.Some? && claimed.value != 0 then claimed else None;
    starts := [];
    while true
      invariant start <= |file| && content == file[..start] && Honest(total, claimed, |file|)
      invariant Consecutive(starts, chunkSize, |file|)
      invariant start == if starts == [] then 0 else starts[|starts| - 1] + chunkSize
      invariant forall k :: 0 <= k < |starts| ==> !fails(starts[k])
      invariant total.Some? && start > 0 ==> start < total.value
      decreases |file| - start
    {
      var end := start + chunkSize - 1;
      if total.Some? {
        end := Min(end, total.value - 1);
        if start > total.value - 1 {
          break;
        }
      }
      OneMore(starts, chunkSize, |file|, start);
      starts := starts + [start];
      if fails(start) {
        assert starts[|starts| - 1] == start;
        return Err(RequestFailed), starts;
      }
      var chunk := Answer(file, start, end);
      AnswerExtends(file, start, end);
      if total.None? && tells(start) && |file| > 0 {
        total := Some(|file|);
      }
      if chunk == [] {
        break;
      }
      content := content + chunk;
      if total.Some? && |content| >= total.value {
        break;
      }
      if |chunk| < end - start + 1 {
        break;
      }
      start := end + 1;
    }
    assert file[..|file|] == file;
    return Ok(content), starts;
  }

  /** Uploading and downloading again gives the same bytes, whatever the two chunk sizes, whether the size is
      given, learnt from an answer or never known; a given size that is too large does no harm. */
  method UploadThenDownload(data: seq<byte>, upChunk: nat, downChunk: nat, claimed: Option<int>,
                            answer: nat -> string, tells: nat -> bool, failsUp: nat -> bool, failsDown: nat -> bool)
    returns (r: Result<seq<byte>, Failure>)
    requires upChunk > 0 && downChunk > 0
    requires claimed.Some? && claimed.value != 0 ==> claimed.value >= |data|
    ensures r.Ok? ==> r.value == data
    ensures (forall k: nat :: !failsUp(k)) && (forall k: nat :: !failsDown(k * downChunk)) ==> r.Ok?
  {
    var sent, parts := UploadFile(data, upChunk, "", answer, failsUp);
    if sent.Err? {
      return Err(sent.error);
    }
    var starts;
    r, starts := DownloadFile(Join(parts), downChunk, claimed, tells, failsDown);
    if r.Err? {
      var k :| 0 <= k < |starts| && failsDown(starts[k]);
      StartsAre(starts, downChunk, |data|, k);
      assert failsDown(k * downChunk);
    }
  }
}
