/** The chunk loops of the cloudreve driver (oneDriveUpload and notKnowUpload), which do not retry
    but return an offset for the next call to resume from, and the state kept between calls. */
module CloudreveUpload {
  import opened Basics
  import opened UploadReader

  /** An offset from which chunk numbers come out exact. */
  predicate ChunkOffset(n: int, total: int, c: int)
    requires c > 0
  {
    0 <= n <= total && (n % c == 0 || n == total)
  }

  function Next(n: nat, total: nat, c: nat): nat
    requires c > 0 && n <= total
  {
    Min(total, n + c)
  }

  lemma NextIsChunkOffset(n: nat, total: nat, c: nat)
    requires c > 0 && ChunkOffset(n, total, c)
    ensures ChunkOffset(Next(n, total, c), total, c)
  {
    ModStep(n + c, c);
  }

  datatype LoopEnd = Finished | Refused | StillGoing

  /** One chunk as announced in the request headers. */
  datatype Header = Header(start: int, end: int, chunk: int)

  /** What a loop leaves: the offset it returns, the offset up to which the server has accepted
      everything, the accepted bytes in order, and the headers sent. StillGoing: all requests given
      have been made and the loop would go on. */
  datatype LoopResult = LoopResult(end: LoopEnd, offset: int, acked: int, accepted: Bytes, headers: seq<Header>)

  /** The headers of n chunks from offset on. */
  function HeadersFrom(offset: nat, total: nat, c: nat, n: nat): seq<Header>
    requires c > 0 && offset <= total
    decreases n
  {
    if n == 0 then []
    else [Header(offset, Next(offset, total, c), offset / c)] + HeadersFrom(Next(offset, total, c), total, c, n - 1)
  }

  function OffsetAfter(offset: nat, total: nat, c: nat, n: nat): nat
    requires c > 0 && offset <= total
    decreases n
  {
    if n == 0 then offset else OffsetAfter(Next(offset, total, c), total, c, n - 1)
  }

  lemma {:induction false} OneMoreHeader(offset: nat, total: nat, c: nat, n: nat)
    requires c > 0 && offset <= total
    ensures OffsetAfter(offset, total, c, n) <= total
    ensures var last := OffsetAfter(offset, total, c, n);
            && OffsetAfter(offset, total, c, n + 1) == Next(last, total, c)
            && HeadersFrom(offset, total, c, n + 1)
               == HeadersFrom(offset, total, c, n) + [Header(last, Next(last, total, c), last / c)]
    decreases n
  {
    if n > 0 { OneMoreHeader(Next(offset, total, c), total, c, n - 1); }
  }

  lemma {:induction false} OffsetsStayChunked(offset: nat, total: nat, c: nat, n: nat)
    requires c > 0 && ChunkOffset(offset, total, c)
    ensures ChunkOffset(OffsetAfter(offset, total, c, n), total, c)
    decreases n
  {
    if n > 0 {
      NextIsChunkOffset(offset, total, c);
      OffsetsStayChunked(Next(offset, total, c), total, c, n - 1);
    }
  }

  /** What a call that starts at offset u must satisfy: the requests before the last one it made
      succeeded, and the last one tells how it ends. */
  predicate LoopOk(file: Bytes, c: nat, u: nat, requests: seq<Attempt>, r: LoopResult)
    requires c > 0
  {
    var n := |r.headers|;
    && n <= |requests| && (forall k :: 0 <= k < n - 1 ==> requests[k].Succeeds?)
    && if u > |file| then PastEndOk(file, c, u, requests, r) else InFileOk(file, c, u, requests, r)
  }

  predicate InFileOk(file: Bytes, c: nat, u: nat, requests: seq<Attempt>, r: LoopResult)
    requires c > 0 && u <= |file| && |r.headers| <= |requests|
  {
    var total, n := |file|, |r.headers|;
    && r.headers == HeadersFrom(u, total, c, n)
    && u <= r.acked <= total && r.accepted == file[u..r.acked]
    && match r.end
       case StillGoing =>
         n == |requests| && (n > 0 ==> requests[n - 1].Succeeds?)
         && r.acked == r.offset == OffsetAfter(u, total, c, n) && (u < total ==> r.acked < total)
       case Finished =>
         n > 0 && requests[n - 1].Succeeds?
         && u < total == r.acked == r.offset == OffsetAfter(u, total, c, n)
       case Refused =>
         n > 0 && requests[n - 1].Fails? && r.acked == OffsetAfter(u, total, c, n - 1)
         && (u < total ==> r.acked < total)
         && r.offset == (if TookAll(requests[n - 1], Next(r.acked, total, c) - r.acked)
                         then Next(r.acked, total, c) else r.acked)
  }

  /** Behind the end of a file that has become shorter the same empty request is made again and again. */
  predicate PastEndOk(file: Bytes, c: nat, u: nat, requests: seq<Attempt>, r: LoopResult)
    requires c > 0 && |r.headers| <= |requests|
  {
    var n := |r.headers|;
    && (forall k :: 0 <= k < n ==> r.headers[k] == Header(u, |file|, u / c))
    && r.acked == r.offset == u && r.accepted == []
    && match r.end
       case StillGoing => n == |requests| && (n > 0 ==> requests[n - 1].Succeeds?)
       case Finished => false
       case Refused => n > 0 && requests[n - 1].Fails?
  }

  predicate TookAll(a: Attempt, size: nat) { a.Taken(size) == size }

  method ChunkLoop(file: Bytes, chunkSize: nat, uploaded: nat, requests: seq<Attempt>) returns (r: LoopResult)
    requires chunkSize > 0
    ensures LoopOk(file, chunkSize, uploaded, requests, r) && r.offset >= 0
    ensures ChunkOffset(uploaded, |file|, chunkSize) ==> ChunkOffset(r.offset, |file|, chunkSize)
  {
    var pr := new ProgressReader(file, chunkSize, uploaded);
    if uploaded > |file| {
      r := LoopPastEnd(pr, requests);
    } else {
      r := LoopInFile(pr, requests);
      if ChunkOffset(uploaded, |file|, chunkSize) { OffsetsAreExact(file, chunkSize, uploaded, requests, r); }
    }
  }

  method LoopInFile(pr: ProgressReader, requests: seq<Attempt>) returns (r: LoopResult)
    requires pr.Aligned() && !pr.finish
    modifies pr
    ensures |r.headers| <= |requests| && (forall k :: 0 <= k < |r.headers| - 1 ==> requests[k].Succeeds?)
    ensures InFileOk(pr.file, pr.chunkSize, old(pr.uploaded), requests, r)
  {
    var headers: seq<Header> := [];
    var accepted: Bytes := [];
    ghost var u, total := pr.uploaded, |pr.file|;
    var n := 0;
    while n < |requests|
      invariant pr.Aligned() && !pr.finish
      invariant 0 <= n == |headers| <= |requests|
      invariant headers == HeadersFrom(u, total, pr.chunkSize, n)
      invariant forall k :: 0 <= k < n ==> requests[k].Succeeds?
      invariant u <= pr.uploaded == OffsetAfter(u, total, pr.chunkSize, n)
      invariant accepted == pr.file[u..pr.uploaded]
      invariant u < total ==> pr.uploaded < total
    {
      var acked := pr.GetUploaded();
      OneMoreHeader(u, total, pr.chunkSize, n);
      var startSize, endSize := pr.NextChunk();
      headers := headers + [Header(startSize, endSize, startSize / pr.chunkSize)];
      var sent := pr.Consume(requests[n].sizes, requests[n].TakesAll(), acked);
      if requests[n].Fails? {
        return LoopResult(Refused, pr.uploaded, acked, accepted, headers);
      }
      SliceJoin(pr.file, u, acked, pr.uploaded);
      accepted := accepted + sent;
      n := n + 1;
      if pr.finish {
        return LoopResult(Finished, pr.uploaded, pr.uploaded, accepted, headers);
      }
    }
    r := LoopResult(StillGoing, pr.uploaded, pr.uploaded, accepted, headers);
  }

  /** The same loop, when there is nothing to read. */
  method LoopPastEnd(pr: ProgressReader, requests: seq<Attempt>) returns (r: LoopResult)
    requires pr.chunkSize > 0 && pr.totalSize == |pr.file| < pr.pos == pr.uploaded && !pr.finish
    modifies pr
    ensures |r.headers| <= |requests| && (forall k :: 0 <= k < |r.headers| - 1 ==> requests[k].Succeeds?)
    ensures PastEndOk(pr.file, pr.chunkSize, old(pr.uploaded), requests, r)
  {
    var headers: seq<Header> := [];
    var n := 0;
    while n < |requests|
      invariant pr.totalSize == |pr.file| < pr.pos == pr.uploaded == old(pr.uploaded) && !pr.finish
      invariant 0 <= n == |headers| <= |requests|
      invariant forall k :: 0 <= k < n ==> headers[k] == Header(pr.uploaded, |pr.file|, pr.uploaded / pr.chunkSize)
      invariant forall k :: 0 <= k < n ==> requests[k].Succeeds?
    {
      var startSize, endSize := pr.NextChunk();
      headers := headers + [Header(startSize, endSize, startSize / pr.chunkSize)];
      var sent := pr.ConsumePastEnd(requests[n].sizes, requests[n].TakesAll(), startSize);
      if requests[n].Fails? {
        return LoopResult(Refused, pr.uploaded, pr.uploaded, [], headers);
      }
      n := n + 1;
    }
    r := LoopResult(StillGoing, pr.uploaded, pr.uploaded, [], headers);
  }

  // ---------- what the loop guarantees ----------

  /** From a chunk boundary every offset stays one: the returned offset, the acknowledged one, and
      the start of every request, so every chunk number sent is exact. */
  lemma OffsetsAreExact(file: Bytes, c: nat, u: nat, requests: seq<Attempt>, r: LoopResult)
    requires c > 0 && u <= |file| && LoopOk(file, c, u, requests, r) && ChunkOffset(u, |file|, c)
    ensures ChunkOffset(r.offset, |file|, c) && ChunkOffset(r.acked, |file|, c)
    ensures forall k :: 0 <= k < |r.headers| ==>
              r.headers[k].start < |file| ==> r.headers[k].chunk * c == r.headers[k].start
  {
    var n := |r.headers|;
    OffsetsStayChunked(u, |file|, c, n);
    if n > 0 { OffsetsStayChunked(u, |file|, c, n - 1); }
    NextIsChunkOffset(r.acked, |file|, c);
    forall k | 0 <= k < n && r.headers[k].start < |file| ensures r.headers[k].chunk * c == r.headers[k].start {
      HeaderAt(u, |file|, c, n, k);
    }
  }

  lemma {:induction false} HeaderAt(u: nat, total: nat, c: nat, n: nat, k: nat)
    requires c > 0 && ChunkOffset(u, total, c) && k < n
    ensures |HeadersFrom(u, total, c, n)| == n
    ensures var h := HeadersFrom(u, total, c, n)[k];
            && h == Header(OffsetAfter(u, total, c, k), OffsetAfter(u, total, c, k + 1), h.start / c)
            && (h.start < total ==> h.chunk * c == h.start)
    decreases n
  {
    NextIsChunkOffset(u, total, c);
    if k > 0 {
      HeaderAt(Next(u, total, c), total, c, n - 1, k - 1);
    } else if n > 1 {
      HeaderAt(Next(u, total, c), total, c, n - 1, 0);
    }
    assert OffsetAfter(u, total, c, 1) == OffsetAfter(Next(u, total, c), total, c, 0);
  }

  /** The returned offset is ahead of what the server accepted by at most one chunk, and it is ahead
      exactly when the refused request had read a chunk to its end. */
  lemma OffsetIsAckedIff(file: Bytes, c: nat, u: nat, requests: seq<Attempt>, r: LoopResult)
    requires c > 0 && u <= |file| && LoopOk(file, c, u, requests, r)
    ensures r.acked <= r.offset <= r.acked + c
    ensures r.offset == r.acked <==>
            !(&& r.end == Refused && r.acked < |file|
              && TookAll(requests[|r.headers| - 1], Next(r.acked, |file|, c) - r.acked))
  {
  }

  lemma {:induction false} OffsetAfterIs(u: nat, total: nat, c: nat, n: nat)
    requires c > 0 && u <= total
    ensures OffsetAfter(u, total, c, n) == Min(total, u + n * c)
    decreases n
  {
    if n > 0 {
      OffsetAfterIs(Next(u, total, c), total, c, n - 1);
      TimesNext(n - 1, c);
      assert (n - 1) * c >= 0;
    }
  }

  /** When every request succeeds, and there are enough of them for the rest of the file, the loop
      ends exactly when it did not start at the end of the file; there it goes on for ever. */
  lemma LoopEndsIff(file: Bytes, c: nat, u: nat, requests: seq<Attempt>, r: LoopResult)
    requires c > 0 && u <= |file| && LoopOk(file, c, u, requests, r)
    requires forall k :: 0 <= k < |requests| ==> requests[k].Succeeds?
    requires u + |requests| * c >= |file|
    ensures r.end == (if u < |file| then Finished else StillGoing)
    ensures r.end == Finished ==> r.accepted == file[u..]
  {
    OffsetAfterIs(u, |file|, c, |requests|);
  }

  // ---------- across calls ----------

  /** What the driver caches for one remote path: the offset, the session (its chunk size) and the
      number of errors. Entries may vanish when they expire. */
  class ResumeCache {
    var chunk: Option<int>
    var session: Option<nat>
    var errTimes: Option<int>

    constructor ()
      ensures chunk == None && session == None && errTimes == None
    {
      chunk, session, errTimes := None, None, None;
    }

    method UploadErrAfter(uploadedSize: int)
      modifies this
      ensures var i := if old(errTimes).Some? then old(errTimes).value else 0;
              && errTimes == Some(i + 1)
              && chunk == (if i > 3 then None else Some(uploadedSize))
              && session == (if i > 3 then None else old(session))
    {
      chunk := Some(uploadedSize);
      if errTimes == None { errTimes := Some(0); }
      var i := errTimes.value;
      if i > 3 {
        session := None;
        chunk := None;
        errTimes := None;
      }
      errTimes := Some(i + 1);
    }

    /** The cached offset fits the file, at chunk size c. */
    predicate Resumes(file: Bytes, c: nat)
      requires c > 0
      reads this
    {
      chunk.Some? ==> ChunkOffset(chunk.value, |file|, c)
    }

    /** Between the calls for a file: a cached offset is where the last call left off, and a cached session,
        of the server's chunk size, has one. */
    predicate Between(file: Bytes, c: nat, size: nat, records: seq<Record>)
      requires c > 0
      reads this
    {
      && Resumes(file, c)
      && (session.Some? ==> session.value == size && chunk.Some? && |records| > 0)
      && (session.Some? ==>
            var last := records[|records| - 1];
            last.r.Some? && last.r.value.end != StillGoing && chunk.value == last.r.value.offset)
    }

    method Expire(sessionGone: bool, chunkGone: bool, errGone: bool)
      modifies this
      ensures session == if sessionGone then None else old(session)
      ensures chunk == if chunkGone then None else old(chunk)
      ensures errTimes == if errGone then None else old(errTimes)
    {
      if sessionGone { session := None; }
      if chunkGone { chunk := None; }
      if errGone { errTimes := None; }
    }

    method Clear()
      modifies this
      ensures chunk == None && session == None && errTimes == None
    {
      session := None;
      chunk := None;
      errTimes := None;
    }

    /** One call. offered: the chunk size of a session the server would create (None: it refuses);
        callbackOk: whether the final callback of a OneDrive upload succeeds. ok: success. */
    method UploadFile(file: Bytes, resumable: bool, oneDrive: bool, chunkLimit: nat, offered: Option<nat>,
                      requests: seq<Attempt>, callbackOk: bool)
      returns (ok: bool, from: int, r: Option<LoopResult>, ghost c: nat)
      requires offered.Some? ==> offered.value > 0
      requires session.Some? ==> session.value > 0
      requires chunkLimit > 0
      requires chunk.Some? ==> 0 <= chunk.value
      modifies this
      ensures from == if resumable && old(chunk).Some? then old(chunk).value else 0
      ensures r == None <==> (!resumable || old(session) == None) && offered == None
      ensures r.Some? ==> c > 0 && LoopOk(file, c, from, requests, r.value)
      ensures r.Some? ==>
                var s := if resumable && old(session).Some? then old(session).value else offered.value;
                c == if oneDrive then Min(s, chunkLimit) else s
      ensures ok <==> r.Some? && r.value.end == Finished && (oneDrive ==> callbackOk)
      ensures r.Some? && old(chunk.Some? ==> ChunkOffset(chunk.value, |file|, c)) ==> Resumes(file, c)
      ensures r.Some? && !ok && r.value.end != StillGoing ==>
                var i := if resumable && old(errTimes).Some? then old(errTimes).value else 0;
                && errTimes == Some(i + 1) && chunk == (if i > 3 then None else Some(r.value.offset))
                && (session.Some? <==> i <= 3)
      ensures r == None ==> session == None && chunk == if resumable then old(chunk) else None
      ensures session.Some? ==> session == if resumable && old(session).Some? then old(session) else offered
      ensures ok && resumable ==> chunk == None && session == None && errTimes == None
      ensures session.Some? ==> session.value > 0
      ensures chunk.Some? ==> 0 <= chunk.value
    {
      r, c := None, 1;
      if !resumable { Clear(); }
      from := 0;
      if chunk.Some? { from := chunk.value; }
      if session == None { session := offered; }
      if session == None { return false, from, None, c; }
      var size := session.value;
      if oneDrive { size := Min(size, chunkLimit); }
      c := size;
      var result := ChunkLoop(file, size, from, requests);
      r := Some(result);
      ok := AfterLoop(result.end, result.offset, resumable, oneDrive && !callbackOk);
    }

    /** What is remembered of a loop that ended, and whether the upload succeeded. */
    method AfterLoop(end: LoopEnd, offset: int, resumable: bool, callbackFails: bool) returns (ok: bool)
      modifies this
      ensures ok <==> end == Finished && !callbackFails
      ensures end == StillGoing ==> chunk == old(chunk) && session == old(session) && errTimes == old(errTimes)
      ensures !ok && end != StillGoing ==>
                var i := if old(errTimes).Some? then old(errTimes).value else 0;
                && errTimes == Some(i + 1) && chunk == (if i > 3 then None else Some(offset))
                && session == (if i > 3 then None else old(session))
      ensures ok ==> if resumable then chunk == None && session == None && errTimes == None
                     else chunk == old(chunk) && session == old(session) && errTimes == old(errTimes)
    {
      match end
      case StillGoing =>
        ok := false;
      case Refused =>
        UploadErrAfter(offset);
        ok := false;
      case Finished =>
        if callbackFails {
          UploadErrAfter(offset);
          ok := false;
        } else {
          if resumable { Clear(); }
          ok := true;
        }
    }
  }

  // ---------- many calls ----------

  /** One call for the file: its flags, whether the server offers a session if asked, how the requests go,
      and which cache entries have expired since the call before. */
  datatype Call = Call(resumable: bool, offers: bool, requests: seq<Attempt>, callbackOk: bool,
                       sessionGone: bool, chunkGone: bool, errGone: bool)

  /** What came of it; renewed: it was the first with its session. */
  datatype Record = Record(from: int, renewed: bool, requests: seq<Attempt>, r: Option<LoopResult>, ok: bool)

  /** Every call that had a session began at a chunk boundary: where the call before left off, or, if the
      session was new, there or at 0. */
  predicate Chained(file: Bytes, c: nat, records: seq<Record>, k: nat)
    requires c > 0 && k < |records|
  {
    var call := records[k];
    && ChunkOffset(call.from, |file|, c)
    && (call.r.Some? ==> LoopOk(file, c, call.from, call.requests, call.r.value))
    && (call.r.Some? && !call.renewed ==>
          && k > 0 && records[k - 1].r.Some? && records[k - 1].r.value.end != StillGoing
          && call.from == records[k - 1].r.value.offset)
  }

  /** A refused request that had read its chunk to the end. */
  predicate Leads(file: Bytes, c: nat, call: Record)
    requires c > 0
  {
    && call.r.Some? && call.r.value.end == Refused && 0 <= call.r.value.acked < |file|
    && 0 < |call.r.value.headers| <= |call.requests|
    && TookAll(call.requests[|call.r.value.headers| - 1], Next(call.r.value.acked, |file|, c) - call.r.value.acked)
  }

  /** What the session of call k has accepted by the end of it, in order. */
  function Held(records: seq<Record>, k: nat): Bytes
    requires k < |records|
  {
    var here := if records[k].r.Some? then records[k].r.value.accepted else [];
    if records[k].renewed || k == 0 then here else Held(records, k - 1) + here
  }

  /** The session began behind the start of the file, or some call with it led. */
  predicate Gapped(file: Bytes, c: nat, records: seq<Record>, k: nat)
    requires c > 0 && k < |records|
  {
    || Leads(file, c, records[k])
    || (if records[k].renewed || k == 0 then records[k].from > 0 else Gapped(file, c, records, k - 1))
  }

  lemma {:induction false} HeldIs(file: Bytes, c: nat, records: seq<Record>, k: nat)
    requires c > 0 && k < |records| && records[k].r.Some?
    requires forall j :: 0 <= j <= k ==> Chained(file, c, records, j)
    ensures var last := records[k].r.value;
            && |Held(records, k)| <= last.acked <= last.offset <= |file|
            && (Gapped(file, c, records, k) ==> |Held(records, k)| < last.offset)
            && (!Gapped(file, c, records, k) ==> Held(records, k) == file[..last.offset])
  {
    var call := records[k];
    assert Chained(file, c, records, k);
    OffsetIsAckedIff(file, c, call.from, call.requests, call.r.value);
    if !call.renewed {
      HeldIs(file, c, records, k - 1);
    }
    SliceJoin(file, 0, call.from, call.r.value.acked);
  }

  /** A call that finishes leaves the whole file on the server exactly when its session began at the start
      of the file and no refused request in it had read its chunk to the end. */
  lemma FinishedIsWholeIff(file: Bytes, c: nat, records: seq<Record>, k: nat)
    requires c > 0 && k < |records| && records[k].r.Some? && records[k].r.value.end == Finished
    requires forall j :: 0 <= j <= k ==> Chained(file, c, records, j)
    ensures Held(records, k) == file <==> !Gapped(file, c, records, k)
  {
    assert Chained(file, c, records, k);
    HeldIs(file, c, records, k);
  }

  /** A call leaves the end of the file as offset exactly when it finished, or was refused the last chunk
      after reading it to the end. */
  lemma EndsAtTotalIff(file: Bytes, c: nat, u: nat, requests: seq<Attempt>, r: LoopResult)
    requires c > 0 && u < |file| && LoopOk(file, c, u, requests, r) && r.end != StillGoing
    ensures r.offset == |file| <==>
            || r.end == Finished
            || (r.acked + c >= |file| && TookAll(requests[|r.headers| - 1], |file| - r.acked))
  {
  }

  /** Behind the end of a file that became shorter no call gets through either. */
  lemma StuckBehindEnd(file: Bytes, c: nat, u: nat, requests: seq<Attempt>, r: LoopResult)
    requires c > 0 && u > |file| && LoopOk(file, c, u, requests, r)
    ensures r.end != Finished && r.offset == u
    ensures (forall k :: 0 <= k < |requests| ==> requests[k].Succeeds?) ==> r.end == StillGoing
  {
  }

  /** From there no later call gets through: with requests that all succeed it goes on for ever. */
  lemma StuckAtTotal(file: Bytes, c: nat, requests: seq<Attempt>, r: LoopResult)
    requires c > 0 && LoopOk(file, c, |file|, requests, r)
    ensures r.end != Finished && r.offset == |file|
    ensures (forall k :: 0 <= k < |requests| ==> requests[k].Succeeds?) ==> r.end == StillGoing
  {
    OffsetAfterIs(|file|, |file|, c, |r.headers|);
    if |r.headers| > 0 { OffsetAfterIs(|file|, |file|, c, |r.headers| - 1); }
  }

  /** Any number of calls for one file on a server that keeps its chunk size, until one succeeds (from then
      on the file exists and is not uploaded again) or does not return. The offset is stored later than
      the session and expires later. */
  method ManyCalls(cache: ResumeCache, file: Bytes, oneDrive: bool, chunkLimit: nat, size: nat, calls: seq<Call>)
    returns (records: seq<Record>, ghost c: nat)
    requires size > 0 && chunkLimit > 0
    requires cache.chunk == None && cache.session == None && cache.errTimes == None
    requires forall k :: 0 <= k < |calls| && calls[k].chunkGone ==> calls[k].sessionGone
    modifies cache
    ensures c > 0 && c == if oneDrive then Min(size, chunkLimit) else size
    ensures |records| <= |calls|
    ensures forall k :: 0 <= k < |records| ==> Chained(file, c, records, k)
    ensures forall k :: 0 <= k < |records| && records[k].ok ==> records[k].r.Some? && records[k].r.value.end == Finished
    ensures |records| < |calls| ==>
              |records| > 0 && var last := records[|records| - 1];
              last.ok || (last.r.Some? && last.r.value.end == StillGoing)
  {
    c := if oneDrive then Min(size, chunkLimit) else size;
    records := [];
    for k := 0 to |calls|
      invariant |records| == k
      invariant forall j :: 0 <= j < k ==> Chained(file, c, records, j)
      invariant forall j :: 0 <= j < k && records[j].ok ==> records[j].r.Some? && records[j].r.value.end == Finished
      invariant cache.Between(file, c, size, records)
    {
      var call := calls[k];
      cache.Expire(call.sessionGone, call.chunkGone, call.errGone);
      var renewed := !call.resumable || cache.session == None;
      ghost var size';
      var ok, from, r;
      ok, from, r, size' := cache.UploadFile(file, call.resumable, oneDrive, chunkLimit,
                                             if call.offers then Some(size) else None, call.requests, call.callbackOk);
      ghost var before := records;
      records := records + [Record(from, renewed, call.requests, r, ok)];
      assert 0 % c == 0;
      assert Chained(file, c, records, k);
      forall j | 0 <= j < k ensures Chained(file, c, records, j) { assert Chained(file, c, before, j); }
      if ok || (r.Some? && r.value.end == StillGoing) {
        return;
      }
    }
  }

  /** It does happen: the first call is refused after its chunk was read to the end, the second goes on behind
      it and succeeds, and the server never got the first chunk. */
  method SucceedsWithGap(file: Bytes, c: nat) returns (ok: bool, first: LoopResult, second: LoopResult)
    requires 0 < c < |file| <= 2 * c
    ensures ok && first.end == Refused && second.end == Finished
    ensures first.accepted + second.accepted == file[c..] != file
  {
    var cache := new ResumeCache();
    ghost var c1, c2;
    var failed, from, r1, r2;
    failed, from, r1, c1 := cache.UploadFile(file, true, false, c, Some(c), [Fails([], true)], true);
    first := r1.value;
    assert first.end == Refused && first.headers == HeadersFrom(0, |file|, c, 1);
    assert OffsetAfter(0, |file|, c, 0) == 0 && first.offset == c;
    ok, from, r2, c2 := cache.UploadFile(file, true, false, c, Some(c), [Succeeds([], "")], true);
    second := r2.value;
    OffsetAfterIs(c, |file|, c, 1);
    assert second.end == Finished && first.accepted == file[0..0];
  }
}
