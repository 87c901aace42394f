/** The reader that feeds a local file to an upload in chunks and counts what was read. */
module UploadReader {
  import opened Basics

  function Sum(s: seq<nat>): nat {
    if s == [] then 0 else s[0] + Sum(s[1..])
  }

  /** One upload request as the reader sees it: the client reads pieces of these sizes; a request
      that succeeds has read its chunk to the end, one that fails may have stopped anywhere. */
  datatype Attempt = Fails(sizes: seq<nat>, toEnd: bool) | Succeeds(sizes: seq<nat>, tag: string) {
    predicate TakesAll() { Succeeds? || toEnd }

    function Taken(size: nat): nat { if TakesAll() then size else Min(Sum(sizes), size) }
  }

  class ProgressReader {
    const file: Bytes
    const chunkSize: int
    const totalSize: int
    var pos: int              // the cursor of the file
    var limit: int            // what the reader of the current chunk may still read
    var started: bool          // NextChunk has been called
    var uploaded: int
    var currentSize: int
    var currentUploaded: int
    var finish: bool

    /** Opening a file and seeking to where an earlier upload stopped. The chunk size divides the
        file size in the source, so it must not be zero. */
    constructor (file: Bytes, chunkSize: int, uploaded: nat)
      requires chunkSize > 0
      ensures this.file == file && this.chunkSize == chunkSize && totalSize == |file|
      ensures pos == uploaded == this.uploaded && !finish && !started
      ensures currentSize == currentUploaded == 0
    {
      this.file, this.chunkSize, totalSize := file, chunkSize, |file|;
      pos, limit, started := uploaded, 0, false;
      this.uploaded, currentSize, currentUploaded, finish := uploaded, 0, 0, false;
    }

    /** Between chunks: the cursor is where the counter says. */
    predicate Aligned()
      reads this
    {
      chunkSize > 0 && totalSize == |file| && 0 <= uploaded <= totalSize && pos == uploaded
    }

    /** Inside the chunk that begins at start, with k of its bytes read. */
    predicate AtChunk(start: int, k: int)
      reads this
    {
      && chunkSize > 0 && totalSize == |file| && started && 0 <= start <= totalSize
      && currentSize == Min(totalSize, start + chunkSize) - start
      && 0 <= k <= currentSize && currentUploaded == k
      && pos == start + k && limit == chunkSize - k
      && uploaded == (if k > 0 && k == currentSize then start + k else start)
    }

    /** One read of at most want bytes, of which the system delivers at most grant: nothing in a cancelled
        upload, behind the limit or at the end of the file, else the next bytes of the file. */
    method Read(want: nat, grant: nat, cancelled: bool) returns (data: Bytes)
      requires started && 0 <= pos
      modifies this`pos, this`limit, this`uploaded, this`currentUploaded, this`finish
      ensures |data| == if cancelled || old(limit) <= 0 || |file| <= old(pos) then 0
                        else Min(Min(want, grant), Min(old(limit), |file| - old(pos)))
      ensures pos == old(pos) + |data| && limit == old(limit) - |data|
      ensures data != [] ==> pos <= |file| && data == file[old(pos)..pos]
      ensures currentUploaded == old(currentUploaded) + |data|
      ensures uploaded == old(uploaded) + (if data != [] && currentUploaded == currentSize then currentSize else 0)
      ensures finish == (old(finish) || (data != [] && uploaded == totalSize))
    {
      data := [];
      if cancelled { return; }
      if limit > 0 && pos < |file| {
        var n := Min(Min(want, grant), Min(limit, |file| - pos));
        data := file[pos..pos + n];
      }
      pos, limit := pos + |data|, limit - |data|;
      if |data| > 0 {
        currentUploaded := currentUploaded + |data|;
        if currentSize == currentUploaded {
          uploaded := uploaded + currentSize;
        }
        if uploaded == totalSize {
          finish := true;
        }
      }
    }

    /** Starts the next chunk. It reads on where the cursor is; it does not seek. */
    method NextChunk() returns (startSize: int, endSize: int)
      modifies this`limit, this`started, this`currentSize, this`currentUploaded
      ensures startSize == uploaded && endSize == Min(totalSize, uploaded + chunkSize)
      ensures started && limit == chunkSize && currentUploaded == 0 && currentSize == endSize - startSize
      ensures old(Aligned()) ==> AtChunk(startSize, 0)
      ensures chunkSize > 0 && totalSize == |file| < pos == uploaded ==> PastEnd(startSize)
    {
      limit, started := chunkSize, true;
      startSize := uploaded;
      endSize := Min(totalSize, uploaded + chunkSize);
      currentSize := endSize - startSize;
      currentUploaded := 0;
    }

    /** In a chunk begun behind the end of the file, which has become shorter: there is nothing to read. */
    predicate PastEnd(start: int)
      reads this
    {
      && chunkSize > 0 && totalSize == |file| && started && totalSize < start
      && pos == start == uploaded && currentUploaded == 0
    }

    /** Reads behind the end of the file get nothing and change nothing. */
    method ConsumePastEnd(sizes: seq<nat>, toEnd: bool, ghost start: int) returns (sent: Bytes)
      requires PastEnd(start)
      modifies this`pos, this`limit, this`uploaded, this`currentUploaded, this`finish
      ensures PastEnd(start) && sent == [] && finish == old(finish)
    {
      sent := [];
      for n := 0 to |sizes|
        invariant PastEnd(start) && sent == [] && finish == old(finish)
      {
        var data := Read(sizes[n], sizes[n], false);
        sent := sent + data;
      }
      if toEnd {
        var data := Read(32768, 32768, false);
        sent := sent + data;
      }
    }

    method GetUploaded() returns (n: int)
      ensures n == uploaded
    {
      n := uploaded;
    }

    /** Back to the start of a chunk, for a retry. finish is not cleared, and the counters are set back even
        when the seek fails. */
    method ResetChunk(savedUploaded: int, seekFails: bool) returns (ok: bool)
      requires 0 <= savedUploaded
      modifies this`uploaded, this`currentUploaded, this`pos
      ensures ok == !seekFails
      ensures uploaded == savedUploaded && currentUploaded == 0 && pos == if ok then savedUploaded else old(pos)
    {
      uploaded := savedUploaded;
      currentUploaded := 0;
      if !seekFails { pos := savedUploaded; }
      ok := !seekFails;
    }

    /** One read inside a chunk: the next bytes of the chunk, and the counters move by their number. */
    method ReadInChunk(want: nat, ghost start: int, ghost k: int) returns (data: Bytes)
      requires AtChunk(start, k)
      modifies this`pos, this`limit, this`uploaded, this`currentUploaded, this`finish
      ensures |data| == Min(want, currentSize - k)
      ensures data == file[start + k..start + k + |data|] && AtChunk(start, k + |data|)
      ensures finish == (old(finish) || (|data| > 0 && k + |data| == currentSize && start + k + |data| == totalSize))
    {
      data := Read(want, want, false);
    }

    /** Pieces of the given sizes, one after the other. */
    method ReadPieces(sizes: seq<nat>, ghost start: int) returns (sent: Bytes)
      requires AtChunk(start, 0)
      modifies this`pos, this`limit, this`uploaded, this`currentUploaded, this`finish
      ensures |sent| == Min(Sum(sizes), currentSize)
      ensures sent == file[start..start + |sent|] && AtChunk(start, |sent|)
      ensures finish == (old(finish) || (|sent| > 0 && |sent| == currentSize && start + |sent| == totalSize))
    {
      sent := [];
      var n := 0;
      while n < |sizes|
        invariant 0 <= n <= |sizes|
        invariant AtChunk(start, |sent|) && sent == file[start..start + |sent|]
        invariant Min(|sent| + Sum(sizes[n..]), currentSize) == Min(Sum(sizes), currentSize)
        invariant finish == (old(finish) || (|sent| > 0 && |sent| == currentSize && start + |sent| == totalSize))
      {
        var data := ReadInChunk(sizes[n], start, |sent|);
        assert sizes[n..][1..] == sizes[n + 1..];
        SliceJoin(file, start, start + |sent|, start + |sent| + |data|);
        sent := sent + data;
        n := n + 1;
      }
    }

    /** On to the end of the chunk. */
    method ReadToEnd(ghost start: int, ghost k: nat) returns (sent: Bytes)
      requires AtChunk(start, k)
      modifies this`pos, this`limit, this`uploaded, this`currentUploaded, this`finish
      ensures AtChunk(start, currentSize) && sent == file[start + k..start + currentSize]
      ensures finish == (old(finish) || (k < currentSize && start + currentSize == totalSize))
    {
      sent := [];
      ghost var j := k;
      while limit > 0 && pos < |file|
        invariant k <= j && AtChunk(start, j) && sent == file[start + k..start + j]
        invariant finish == (old(finish) || (k < j && j == currentSize && start + j == totalSize))
        decreases currentSize - j
      {
        var data := ReadInChunk(32768, start, j);
        SliceJoin(file, start + k, start + j, start + j + |data|);
        sent := sent + data;
        j := j + |data|;
      }
    }

    /** A request body being read: the client reads pieces of any sizes, and on to the end of the
        chunk if toEnd. However it reads, it gets a prefix of the chunk, and the counters depend
        only on the length of that prefix. */
    method Consume(sizes: seq<nat>, toEnd: bool, ghost start: int) returns (sent: Bytes)
      requires AtChunk(start, 0)
      modifies this`pos, this`limit, this`uploaded, this`currentUploaded, this`finish
      ensures |sent| == if toEnd then currentSize else Min(Sum(sizes), currentSize)
      ensures sent == file[start..start + |sent|] && AtChunk(start, |sent|)
      ensures finish == (old(finish) || (|sent| > 0 && |sent| == currentSize && start + |sent| == totalSize))
    {
      sent := ReadPieces(sizes, start);
      if toEnd {
        var more := ReadToEnd(start, |sent|);
        SliceJoin(file, start, start + |sent|, start + currentSize);
        sent := sent + more;
      }
    }
  }

  /** A chunk that is read, however far, and then reset for a retry: the reader is back at the start of the
      chunk, and calls itself finished exactly when the reading had reached the end of the file. */
  method ReadAndReset(pr: ProgressReader, sizes: seq<nat>, toEnd: bool) returns (sent: Bytes)
    requires pr.Aligned() && !pr.finish
    modifies pr
    ensures pr.Aligned() && pr.uploaded == old(pr.uploaded)
    ensures pr.finish <==> sent != [] && old(pr.uploaded) + |sent| == pr.totalSize
    ensures |sent| == if toEnd then pr.currentSize else Min(Sum(sizes), pr.currentSize)
    ensures pr.currentSize == Min(pr.totalSize, pr.uploaded + pr.chunkSize) - pr.uploaded
  {
    var from, to := pr.NextChunk();
    sent := pr.Consume(sizes, toEnd, from);
    var ok := pr.ResetChunk(from, false);
  }
}
