/** The multipart upload of the quark driver: every part is tried up to ten times from the same
    place in the file. */
module QuarkUpload {
  import opened Basics
  import opened Parts
  import opened UploadReader

  const MAX_PART_RETRY: nat := 10

  datatype Outcome =
    | Committed(tags: seq<string>)   // every part was accepted; the tags go into the commit
    | FinishedEarly                  // the server said "finish" instead of a tag
    | GaveUp(part: nat)
    | SeekFailed(part: nat)
    | CommitFailed                   // every part was accepted, but the commit was not
    | FinishFailed                   // the commit was accepted, but the last request was not

  /** The surroundings of an upload: how attempt a at part k goes, whether seeking back before it
      fails, and whether the two requests after the last part fail. */
  datatype World = World(attempt: (nat, nat) -> Attempt, seekFails: (nat, nat) -> bool,
                         commitFails: bool, finishFails: bool)

  datatype PartEnd = Done(tag: string) | NoAttemptLeft | NoSeek

  /** The attempts at part k before attempt a are all made, and all fail. */
  predicate AllFail(w: World, k: nat, a: nat) {
    forall b :: 0 <= b < a ==> Failed(w, k, b)
  }

  predicate Failed(w: World, k: nat, b: nat) {
    w.attempt(k, b).Fails? && (b > 0 ==> !w.seekFails(k, b))
  }

  /** Attempt a at part k is made and is the first to succeed. */
  predicate FirstSuccess(w: World, k: nat, a: nat) {
    a < MAX_PART_RETRY && AllFail(w, k, a) && (a > 0 ==> !w.seekFails(k, a)) && w.attempt(k, a).Succeeds?
  }

  /** How a part ends: with the tag of its first success among ten attempts, with all ten failed,
      or with a failed seek before any success. */
  ghost predicate PartEndsAs(w: World, k: nat, end: PartEnd) {
    match end
    case Done(tag) => exists a :: FirstSuccess(w, k, a) && w.attempt(k, a).tag == tag
    case NoAttemptLeft => AllFail(w, k, MAX_PART_RETRY)
    case NoSeek => exists a :: 0 < a < MAX_PART_RETRY && AllFail(w, k, a) && w.seekFails(k, a)
  }

  /** A part goes through when it ends with a tag other than "finish". */
  ghost predicate Through(w: World, k: nat, tag: string) {
    PartEndsAs(w, k, Done(tag)) && tag != "finish"
  }

  ghost predicate AllThrough(w: World, tags: seq<string>) {
    forall k :: 0 <= k < |tags| ==> Through(w, k, tags[k])
  }

  lemma OneMoreThrough(w: World, tags: seq<string>, tag: string)
    requires AllThrough(w, tags) && PartEndsAs(w, |tags|, Done(tag)) && tag != "finish"
    ensures AllThrough(w, tags + [tag])
  {
  }

  /** How the upload of count parts ends, having got the tags of the first |tags| parts. */
  ghost predicate EndsAs(w: World, out: Outcome, tags: seq<string>, count: nat) {
    && AllThrough(w, tags)
    && match out
       case Committed(all) => all == tags && |tags| == count && !w.commitFails && !w.finishFails
       case CommitFailed => |tags| == count && w.commitFails
       case FinishFailed => |tags| == count && !w.commitFails && w.finishFails
       case FinishedEarly => |tags| < count && PartEndsAs(w, |tags|, Done("finish"))
       case GaveUp(part) => part == |tags| < count && PartEndsAs(w, part, NoAttemptLeft)
       case SeekFailed(part) => part == |tags| < count && PartEndsAs(w, part, NoSeek)
  }

  /** A part ends in one way only. */
  lemma OneEnd(w: World, k: nat, end: PartEnd, end': PartEnd)
    requires PartEndsAs(w, k, end) && PartEndsAs(w, k, end')
    ensures end == end'
  {
    var a := EndIndex(w, k, end);
    var b := EndIndex(w, k, end');
    assert a < b ==> Failed(w, k, a);
    assert b < a ==> Failed(w, k, b);
  }

  /** The attempt at which an end shows: all before it fail. */
  lemma EndIndex(w: World, k: nat, end: PartEnd) returns (a: nat)
    requires PartEndsAs(w, k, end)
    ensures a <= MAX_PART_RETRY && AllFail(w, k, a)
    ensures end.Done? ==> FirstSuccess(w, k, a) && w.attempt(k, a).tag == end.tag
    ensures end.NoAttemptLeft? ==> a == MAX_PART_RETRY
    ensures end.NoSeek? ==> 0 < a < MAX_PART_RETRY && w.seekFails(k, a)
    ensures a < MAX_PART_RETRY ==> !Failed(w, k, a)
  {
    match end
    case Done(tag) => a :| FirstSuccess(w, k, a) && w.attempt(k, a).tag == tag;
    case NoAttemptLeft => a := MAX_PART_RETRY;
    case NoSeek => a :| 0 < a < MAX_PART_RETRY && AllFail(w, k, a) && w.seekFails(k, a);
  }

  /** An upload is committed exactly when every part goes through and so do the two requests after the
      last one; it is then committed with the tags of the first successes, and they are determined. */
  lemma CommitsIff(w: World, out: Outcome, tags: seq<string>, all: seq<string>)
    requires EndsAs(w, out, tags, |all|)
    ensures out == Committed(all) <==>
            !w.commitFails && !w.finishFails && forall k :: 0 <= k < |all| ==> Through(w, k, all[k])
  {
    if forall k :: 0 <= k < |all| ==> Through(w, k, all[k]) {
      forall k | 0 <= k < |tags| && k < |all| ensures tags[k] == all[k] {
        assert Through(w, k, tags[k]) && Through(w, k, all[k]);
        OneEnd(w, k, Done(tags[k]), Done(all[k]));
      }
      if |tags| < |all| {
        assert Through(w, |tags|, all[|tags|]);
        var end := match out case FinishedEarly => Done("finish") case GaveUp(_) => NoAttemptLeft case _ => NoSeek;
        OneEnd(w, |tags|, end, Done(all[|tags|]));
      }
    }
  }

  // ---------- the upload ----------

  /** The attempts at one part. The reader ends up behind the part if one succeeds. */
  method TryPart(pr: ProgressReader, w: World, k: nat, saved: int) returns (end: PartEnd, size: int, sent: Bytes)
    requires pr.Aligned() && pr.uploaded == saved < pr.totalSize
    modifies pr
    ensures size == Min(pr.totalSize, saved + pr.chunkSize) - saved
    ensures PartEndsAs(w, k, end)
    ensures end.Done? ==> pr.Aligned() && pr.uploaded == saved + size && sent == pr.file[saved..saved + size]
  {
    sent, size := [], 0;
    var attempt := 0;
    while attempt < MAX_PART_RETRY
      invariant 0 <= attempt <= MAX_PART_RETRY
      invariant pr.chunkSize > 0 && pr.totalSize == |pr.file| && 0 <= saved < pr.totalSize
      invariant attempt == 0 ==> pr.Aligned() && pr.uploaded == saved
      invariant attempt > 0 ==> size == Min(pr.totalSize, saved + pr.chunkSize) - saved
      invariant AllFail(w, k, attempt)
    {
      if attempt > 0 {
        var reset := pr.ResetChunk(saved, w.seekFails(k, attempt));
        if !reset {
          return NoSeek, size, [];
        }
      }
      var from, to := pr.NextChunk();
      if attempt == 0 {
        size := to - from;
      }
      var request := w.attempt(k, attempt);
      sent := pr.Consume(request.sizes, request.TakesAll(), saved);
      if request.Succeeds? {
        assert FirstSuccess(w, k, attempt);
        return Done(request.tag), size, sent;
      }
      attempt := attempt + 1;
    }
    end := NoAttemptLeft;
  }

  /** accepted holds what each successful request sent, by part number. The reader divides by the
      part size, so it must not be zero. */
  method UploadFile(file: Bytes, serverPartSize: int, chunkSize: int, w: World)
    returns (out: Outcome, accepted: seq<Bytes>, tags: seq<string>)
    requires Min(serverPartSize, chunkSize) > 0
    ensures var parts := SplitParts(file, Min(serverPartSize, chunkSize));
            && EndsAs(w, out, tags, |parts|)
            && accepted <= parts && |accepted| == |tags| + (if out.FinishedEarly? then 1 else 0)
            && (out.Committed? || out.CommitFailed? || out.FinishFailed? ==> accepted == parts)
  {
    var partSize := Min(serverPartSize, chunkSize);
    var total := |file|;
    var left := total;
    var partNumber := 1;
    var pr := new ProgressReader(file, partSize, 0);
    tags, accepted := [], [];
    ghost var parts := SplitParts(file, partSize);
    NothingSent(file, partSize);
    while left > 0
      invariant fresh(pr) && pr.file == file && pr.chunkSize == partSize && pr.Aligned()
      invariant left == total - pr.uploaded
      invariant partNumber == |tags| + 1 == |accepted| + 1
      invariant AcceptedSoFar(parts, file, partSize, accepted, pr.uploaded)
      invariant AllThrough(w, tags)
      decreases left
    {
      var savedUploaded := pr.GetUploaded();
      OneMoreAccepted(parts, file, partSize, accepted, savedUploaded);
      var end, size, sent := TryPart(pr, w, partNumber - 1, savedUploaded);
      left := left - size;
      if end == NoSeek {
        return SeekFailed(partNumber - 1), accepted, tags;
      }
      if end == NoAttemptLeft {
        return GaveUp(partNumber - 1), accepted, tags;
      }
      var m := end.tag;
      accepted := accepted + [sent];
      if m == "finish" {
        return FinishedEarly, accepted, tags;
      }
      OneMoreThrough(w, tags, m);
      tags := tags + [m];
      partNumber := partNumber + 1;
    }
    assert accepted == parts;
    if w.commitFails {
      return CommitFailed, accepted, tags;
    }
    if w.finishFails {
      return FinishFailed, accepted, tags;
    }
    out := Committed(tags);
  }

  /** The parts from byte from on. */
  function PartsFrom(file: Bytes, from: nat, size: int): seq<Bytes>
    requires size > 0 && from <= |file|
    decreases |file| - from
  {
    if from == |file| then []
    else
      var next := Min(|file|, from + size);
      [file[from..next]] + PartsFrom(file, next, size)
  }

  lemma {:induction false} PartsFromIs(file: Bytes, from: nat, size: int)
    requires size > 0 && from <= |file|
    ensures PartsFrom(file, from, size) == SplitParts(file[from..], size)
    decreases |file| - from
  {
    if from < |file| {
      var n := Min(size, |file| - from);
      PartsFromIs(file, from + n, size);
      SliceOfDrop(file, from, 0, n);
      assert file[from..][n..] == file[from + n..];
    }
  }

  /** The accepted parts are the first ones, up to byte from. */
  predicate AcceptedSoFar(parts: seq<Bytes>, file: Bytes, size: int, accepted: seq<Bytes>, from: nat)
    requires size > 0 && from <= |file|
  {
    parts == accepted + PartsFrom(file, from, size)
  }

  lemma NothingSent(file: Bytes, size: int)
    requires size > 0
    ensures AcceptedSoFar(SplitParts(file, size), file, size, [], 0)
  {
    PartsFromIs(file, 0, size);
    assert file[0..] == file;
  }

  lemma OneMoreAccepted(parts: seq<Bytes>, file: Bytes, size: int, accepted: seq<Bytes>, from: nat)
    requires size > 0 && from < |file| && AcceptedSoFar(parts, file, size, accepted, from)
    ensures var next := Min(|file|, from + size);
            AcceptedSoFar(parts, file, size, accepted + [file[from..next]], next)
    ensures |accepted| < |parts| && accepted <= parts
    ensures accepted + [file[from..Min(|file|, from + size)]] <= parts
  {
    var next := Min(|file|, from + size);
    assert accepted + ([file[from..next]] + PartsFrom(file, next, size))
        == accepted + [file[from..next]] + PartsFrom(file, next, size);
  }
}
