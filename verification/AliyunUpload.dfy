/** Part sizes of the aliyundrive_open driver, and its upload of one part after another. */
module AliyunUpload {
  import opened Basics
  import opened Floats
  import opened Parts
  import opened UploadReader

  const GIB: int := 1024 * 1024 * 1024
  const DEFAULT_PART_SIZE: int := 20 * 1024 * 1024
  const MAX_PART_COUNT: int := 10000
  const MAX_ATTEMPTS: nat := 3

  /** The largest file whose parts fit. */
  const LARGEST: int := 50000 * GIB

  function CalPartSize(fileSize: int): int {
    if fileSize <= DEFAULT_PART_SIZE then DEFAULT_PART_SIZE
    else if fileSize > 1024 * GIB then 5 * GIB
    else if fileSize > 768 * GIB then 109951163
    else if fileSize > 512 * GIB then 82463373
    else if fileSize > 384 * GIB then 54975582
    else if fileSize > 256 * GIB then 41231687
    else if fileSize > 128 * GIB then 27487791
    else DEFAULT_PART_SIZE
  }

  /** int(math.Ceil(float64(fileSize) / float64(partSize))); quotient is what the division gave. */
  function CalPartCount(quotient: real): int { Ceil(quotient) }

  /** A larger file never gets smaller parts. */
  lemma PartSizeIsMonotone(f: int, g: int)
    requires f <= g
    ensures 0 < CalPartSize(f) <= CalPartSize(g)
  {
  }

  /** The tops of the brackets, in GiB. */
  const TOPS: seq<int> := [128, 256, 384, 512, 768, 1024]

  /** Between two tops the part size is the least with which a file as large as the upper one has no more
      than the allowed number of parts. */
  lemma PartSizeIsLeast(f: int, i: nat, p: int)
    requires 0 < i < |TOPS| && TOPS[i - 1] * GIB < f <= TOPS[i] * GIB && p > 0
    ensures CalPartSize(f) <= p <==> CeilDiv(TOPS[i] * GIB, p) <= MAX_PART_COUNT
  {
    CountAtMostIff(TOPS[i] * GIB, p, MAX_PART_COUNT);
    if i == 1 {
    } else if i == 2 {
    } else if i == 3 {
    } else if i == 4 {
    }
  }

  /** Smaller files have the default size, larger ones 5 GiB. */
  lemma PartSizeOutside(f: int)
    ensures f <= TOPS[0] * GIB <==> CalPartSize(f) == DEFAULT_PART_SIZE
    ensures f > TOPS[5] * GIB <==> CalPartSize(f) == 5 * GIB
  {
  }

  /** The part count the driver computes in floating point is the integer ceiling, for every file
      below 2^53 bytes, and it is within the limit exactly for files up to 50000 GiB. */
  lemma PartCountIs(fileSize: int, quotient: real)
    requires 0 <= fileSize < TWO53
    requires FloatQuotient(fileSize, CalPartSize(fileSize), quotient)
    ensures CalPartCount(quotient) == CeilDiv(fileSize, CalPartSize(fileSize))
    ensures CalPartCount(quotient) <= MAX_PART_COUNT <==> fileSize <= LARGEST
  {
    OnlyDivisionRounds(fileSize, CalPartSize(fileSize), quotient);
    FloatCeilIsExact(fileSize, CalPartSize(fileSize), quotient);
    CountAtMostIff(fileSize, CalPartSize(fileSize), MAX_PART_COUNT);
  }

  /** As many parts as the file has pieces of the part size. */
  lemma PartCountIsNumberOfParts(file: Bytes, quotient: real)
    requires |file| < TWO53
    requires FloatQuotient(|file|, CalPartSize(|file|), quotient)
    ensures CalPartSize(|file|) > 0
    ensures CalPartCount(quotient) == |SplitParts(file, CalPartSize(|file|))|
  {
    var p := CalPartSize(|file|);
    var n := |SplitParts(file, p)|;
    PartCountIs(|file|, quotient);
    PartCount(file, p);
    CountAtMostIff(|file|, p, n);
    if n > 0 {
      assert file != [];
      CountAtMostIff(|file|, p, n - 1);
    } else {
      CeilBounds(|file|, p);
    }
  }

  lemma PartIs(file: Bytes, size: int, i: nat)
    requires size > 0 && i < |SplitParts(file, size)|
    ensures 0 <= i * size <= |file| && size > 0
    ensures SplitParts(file, size)[i] == file[i * size..i * size + Min(size, |file| - i * size)]
  {
    PartPosition(file, size, i);
    TimesNext(i, size);
  }

  // ---------- the local file ----------

  /** An open file with its cursor. */
  class LocalFile {
    const data: Bytes
    var pos: nat

    constructor (data: Bytes, pos: nat)
      ensures this.data == data && this.pos == pos
    {
      this.data, this.pos := data, pos;
    }

    /** A seek that fails leaves the cursor where it is. */
    method Seek(offset: nat, fails: bool)
      modifies this
      ensures pos == if fails then old(pos) else offset
    {
      if !fails { pos := offset; }
    }
  }

  /** io.LimitReader on a file: reads on from the cursor, and at most limit bytes in all. */
  class Section {
    const f: LocalFile
    var left: nat

    constructor (f: LocalFile, limit: nat)
      ensures this.f == f && left == limit
    {
      this.f, left := f, limit;
    }

    /** How many bytes can still be read. */
    function Available(): nat
      reads this, f
    {
      Min(left, Max(|f.data| - f.pos, 0))
    }

    /** One read of at most want bytes. */
    method Read(want: nat) returns (bytes: Bytes)
      modifies this, f
      ensures |bytes| == Min(want, old(Available())) && Available() == old(Available()) - |bytes|
      ensures f.pos == old(f.pos) + |bytes| && (bytes != [] ==> f.pos <= |f.data|)
      ensures bytes == if bytes == [] then [] else f.data[old(f.pos)..f.pos]
    {
      var n := Min(want, Available());
      bytes := if n == 0 then [] else f.data[f.pos..f.pos + n];
      f.pos := f.pos + n;
      left := left - n;
    }

    /** A request body being read: pieces of any sizes, and on to the end if the attempt says so. */
    method Send(attempt: Attempt) returns (sent: Bytes)
      requires f.pos <= |f.data|
      modifies this, f
      ensures |sent| == attempt.Taken(old(Available())) && f.pos == old(f.pos) + |sent| <= |f.data|
      ensures sent == f.data[old(f.pos)..f.pos]
    {
      sent := [];
      ghost var from, all := f.pos, Available();
      var n := 0;
      while n < |attempt.sizes|
        invariant 0 <= n <= |attempt.sizes| && f.pos == from + |sent| <= |f.data|
        invariant sent == f.data[from..f.pos] && Available() == all - |sent|
        invariant Min(|sent| + Sum(attempt.sizes[n..]), all) == Min(Sum(attempt.sizes), all)
      {
        var bytes := Read(attempt.sizes[n]);
        assert attempt.sizes[n..][1..] == attempt.sizes[n + 1..];
        sent := sent + bytes;
        n := n + 1;
      }
      while attempt.TakesAll() && Available() > 0
        invariant f.pos == from + |sent| <= |f.data|
        invariant sent == f.data[from..f.pos] && Available() == all - |sent|
        invariant !attempt.TakesAll() ==> |sent| == Min(Sum(attempt.sizes), all)
        decreases Available()
      {
        var bytes := Read(32768);
        sent := sent + bytes;
      }
    }
  }

  // ---------- the upload ----------

  /** The surroundings: whether the URLs have to be refreshed before part i and that fails, how attempt a at
      part i goes, and whether seeking before it fails, which the upload ignores. */
  datatype World = World(refreshFails: nat -> bool, attempt: (nat, nat) -> Attempt, seekFails: (nat, nat) -> bool)

  /** Attempt a at part i is made and is the first to succeed. */
  predicate FirstSuccess(w: World, i: nat, a: nat) {
    && !w.refreshFails(i) && a < MAX_ATTEMPTS && w.attempt(i, a).Succeeds?
    && forall b :: 0 <= b < a ==> w.attempt(i, b).Fails?
  }

  ghost predicate Sends(w: World, i: nat) {
    exists a :: FirstSuccess(w, i, a)
  }

  /** Attempts 0 to a - 1 at part i are made, and fail. */
  predicate AllFail(w: World, i: nat, a: nat) {
    forall b :: 0 <= b < a ==> w.attempt(i, b).Fails?
  }

  /** Where attempt a at part i reads from, when the cursor is at start before the first attempt. */
  function ReadsFrom(w: World, i: nat, a: nat, start: nat, offset: nat, size: nat, total: nat): nat
    decreases a, 0
  {
    if !w.seekFails(i, a) then offset
    else if a == 0 then start
    else LeavesAt(w, i, a - 1, start, offset, size, total)
  }

  /** Where it leaves the cursor. */
  function LeavesAt(w: World, i: nat, a: nat, start: nat, offset: nat, size: nat, total: nat): nat
    decreases a, 1
  {
    var from := ReadsFrom(w, i, a, start, offset, size, total);
    from + w.attempt(i, a).Taken(Min(size, Max(total - from, 0)))
  }

  /** Where the cursor is before attempt a. */
  function StandsAt(w: World, i: nat, a: nat, start: nat, offset: nat, size: nat, total: nat): nat {
    if a == 0 then start else LeavesAt(w, i, a - 1, start, offset, size, total)
  }

  // ---------- which bytes an attempt reads ----------

  lemma {:induction false} ReadsBehind(w: World, i: nat, a: nat, start: nat, offset: nat, size: nat, total: nat)
    requires start >= offset
    ensures ReadsFrom(w, i, a, start, offset, size, total) >= offset
    decreases a
  {
    if a > 0 { ReadsBehind(w, i, a - 1, start, offset, size, total); }
  }

  /** Attempt b has the cursor at the part's offset by itself: its seek worked, or none was needed. */
  predicate Anchored(w: World, i: nat, b: nat, start: nat, offset: nat) {
    !w.seekFails(i, b) || (b == 0 && start == offset)
  }

  /** The attempts from b up to a read nothing of the part. */
  predicate NothingTaken(w: World, i: nat, b: nat, a: nat, size: nat) {
    forall c :: b <= c < a ==> w.attempt(i, c).Taken(size) == 0
  }

  predicate ReadsRight(w: World, i: nat, a: nat, start: nat, offset: nat, size: nat) {
    exists b :: 0 <= b <= a && Anchored(w, i, b, start, offset) && NothingTaken(w, i, b, a, size)
  }

  /** An attempt reads from the part's offset exactly when some attempt up to it had the cursor there and
      none in between read a byte. */
  lemma {:induction false} ReadsFromOffsetIff(w: World, i: nat, a: nat, start: nat, offset: nat, size: nat, total: nat)
    requires start >= offset && offset + size <= total
    ensures ReadsFrom(w, i, a, start, offset, size, total) == offset <==> ReadsRight(w, i, a, start, offset, size)
    decreases a
  {
    if Anchored(w, i, a, start, offset) {
      assert NothingTaken(w, i, a, a, size);
    } else if a > 0 {
      ReadsFromOffsetIff(w, i, a - 1, start, offset, size, total);
      ReadsBehind(w, i, a - 1, start, offset, size, total);
      if ReadsRight(w, i, a - 1, start, offset, size) && w.attempt(i, a - 1).Taken(size) == 0 {
        var b :| 0 <= b <= a - 1 && Anchored(w, i, b, start, offset) && NothingTaken(w, i, b, a - 1, size);
        assert NothingTaken(w, i, b, a, size);
      }
      if ReadsRight(w, i, a, start, offset, size) {
        var b :| 0 <= b <= a && Anchored(w, i, b, start, offset) && NothingTaken(w, i, b, a, size);
        assert NothingTaken(w, i, b, a - 1, size);
      }
    }
  }

  predicate SameBytes(data: Bytes, offset: nat, size: nat, from: nat)
    requires from <= |data| && offset + size <= |data|
  {
    data[from..Min(from + size, |data|)] == data[offset..offset + size]
  }

  /** A body read from anywhere else than the part's offset is another one, if not for every content. */
  lemma BodyIsPartIff(total: nat, offset: nat, size: nat, from: nat)
    requires 0 < size && offset + size <= total && from <= total
    ensures (forall data: Bytes {:trigger SameBytes(data, offset, size, from)} ::
               |data| == total ==> SameBytes(data, offset, size, from))
            <==> from == offset
  {
    if from != offset {
      var data: Bytes := seq(total, k => if k == offset then 1 as Byte else 0 as Byte);
      var body, part := data[from..Min(from + size, total)], data[offset..offset + size];
      assert |body| == |part| ==> body[0] == data[from] && part[0] == data[offset];
      assert !SameBytes(data, offset, size, from);
    }
  }

  // ---------- which bytes the server accepts ----------

  /** The attempt that succeeds, from attempt a on. */
  function WorkingAttempt(w: World, i: nat, a: nat): nat
    decreases MAX_ATTEMPTS - a
  {
    if a >= MAX_ATTEMPTS || w.attempt(i, a).Succeeds? then a else WorkingAttempt(w, i, a + 1)
  }

  lemma {:induction false} WorkingAttemptIs(w: World, i: nat, b: nat, a: nat)
    requires FirstSuccess(w, i, a) && b <= a
    ensures WorkingAttempt(w, i, b) == a
    decreases a - b
  {
    if b < a { WorkingAttemptIs(w, i, b + 1, a); }
  }

  /** The file and the cursor before the upload, and the part size. */
  datatype Layout = Layout(total: nat, partSize: nat, start: nat) {
    function Offset(i: nat): nat { i * partSize }

    function Size(i: nat): nat { Min(partSize, Max(total - Offset(i), 0)) }
  }

  /** Where the accepted body of part i begins in the file, when the parts before it were accepted. */
  function BodyFrom(w: World, l: Layout, i: nat): nat
    decreases i, 1
  {
    ReadsFrom(w, i, WorkingAttempt(w, i, 0), CursorBefore(w, l, i), l.Offset(i), l.Size(i), l.total)
  }

  /** Where the cursor is before part i. */
  function CursorBefore(w: World, l: Layout, i: nat): nat
    decreases i, 0
  {
    if i == 0 then l.start else Min(BodyFrom(w, l, i - 1) + l.Size(i - 1), l.total)
  }

  lemma {:induction false} CursorIsBehind(w: World, l: Layout, i: nat)
    requires l.partSize > 0 && l.Offset(i) < l.total
    ensures CursorBefore(w, l, i) >= l.Offset(i) && BodyFrom(w, l, i) >= l.Offset(i)
    ensures i > 0 ==> l.Offset(i) == l.Offset(i - 1) + l.partSize && l.Size(i - 1) == l.partSize
  {
    if i > 0 {
      TimesNext(i - 1, l.partSize);
      CursorIsBehind(w, l, i - 1);
    }
    ReadsBehind(w, i, WorkingAttempt(w, i, 0), CursorBefore(w, l, i), l.Offset(i), l.Size(i), l.total);
  }

  /** A part whose predecessor was right needs no seek: the cursor is there already. */
  lemma CursorIsThereIff(w: World, l: Layout, i: nat)
    requires l.partSize > 0 && l.Offset(i) < l.total
    ensures CursorBefore(w, l, i) == l.Offset(i) <==>
            if i == 0 then l.start == 0 else BodyFrom(w, l, i - 1) == l.Offset(i - 1)
  {
    CursorIsBehind(w, l, i);
  }

  /** What the server accepts for part i is the part, whatever the content of the file, exactly when the
      attempt that succeeded read from the part's offset. */
  lemma PartIsRightIff(w: World, l: Layout, i: nat)
    requires l.partSize > 0 && l.Offset(i) < l.total && BodyFrom(w, l, i) <= l.total
    ensures (forall data: Bytes {:trigger SameBytes(data, l.Offset(i), l.Size(i), BodyFrom(w, l, i))} ::
               |data| == l.total ==> SameBytes(data, l.Offset(i), l.Size(i), BodyFrom(w, l, i)))
            <==> ReadsRight(w, i, WorkingAttempt(w, i, 0), CursorBefore(w, l, i), l.Offset(i), l.Size(i))
  {
    CursorIsBehind(w, l, i);
    BodyIsPartIff(l.total, l.Offset(i), l.Size(i), BodyFrom(w, l, i));
    ReadsFromOffsetIff(w, i, WorkingAttempt(w, i, 0), CursorBefore(w, l, i), l.Offset(i), l.Size(i), l.total);
  }

  /** It does go wrong: the first attempt reads one byte and fails, the seek before the second fails, and the
      second succeeds with what follows that byte. */
  lemma SeekFailsOnce(l: Layout) returns (w: World)
    requires l.start == 0 && l.partSize > 0 && l.total > 0
    ensures FirstSuccess(w, 0, 1) && (forall a :: w.seekFails(0, a) <==> a == 1)
    ensures BodyFrom(w, l, 0) == 1 && !ReadsRight(w, 0, 1, 0, 0, l.Size(0))
  {
    w := World(i => false, (i, a) => if a == 0 then Fails([1], false) else Succeeds([], ""), (i, a) => a == 1);
    assert Sum([1]) == 1 + Sum([]) by { assert [1][1..] == []; }
    WorkingAttemptIs(w, 0, 0, 1);
    assert ReadsFrom(w, 0, 0, 0, 0, l.Size(0), l.total) == 0;
    ReadsFromOffsetIff(w, 0, 1, 0, 0, l.Size(0), l.total);
  }

  /** One attempt: it seeks to the part's offset and reads on from the cursor, as far as it gets. */
  method TryOnce(f: LocalFile, w: World, i: nat, a: nat, offset: nat, size: nat, ghost start: nat)
    returns (bytes: Bytes)
    requires f.pos <= |f.data| && offset + size <= |f.data|
    requires f.pos == StandsAt(w, i, a, start, offset, size, |f.data|)
    modifies f
    ensures f.pos == StandsAt(w, i, a + 1, start, offset, size, |f.data|) <= |f.data|
    ensures var from := ReadsFrom(w, i, a, start, offset, size, |f.data|);
            && from <= f.pos && bytes == f.data[from..f.pos]
            && (w.attempt(i, a).Succeeds? ==> f.pos == Min(from + size, |f.data|))
  {
    f.Seek(offset, w.seekFails(i, a));
    var section := new Section(f, size);
    bytes := section.Send(w.attempt(i, a));
    assert f.pos == LeavesAt(w, i, a, start, offset, size, |f.data|);
  }

  /** The attempts at one part. The first that succeeds has sent a section of that size from its cursor on. */
  method SendPart(f: LocalFile, w: World, i: nat, offset: nat, size: nat) returns (sent: Option<Bytes>, ghost a: nat)
    requires f.pos <= |f.data| && offset + size <= |f.data| && !w.refreshFails(i)
    modifies f
    ensures f.pos <= |f.data|
    ensures sent.None? ==> AllFail(w, i, MAX_ATTEMPTS)
    ensures sent.Some? ==> FirstSuccess(w, i, a)
    ensures sent.Some? ==>
              var from := ReadsFrom(w, i, a, old(f.pos), offset, size, |f.data|);
              && from <= |f.data| && f.pos == Min(from + size, |f.data|)
              && sent.value == f.data[from..f.pos]
  {
    ghost var start := f.pos;
    var attempt := 0;
    while attempt < MAX_ATTEMPTS
      invariant 0 <= attempt <= MAX_ATTEMPTS && f.pos <= |f.data| && AllFail(w, i, attempt)
      invariant f.pos == StandsAt(w, i, attempt, start, offset, size, |f.data|)
    {
      var bytes := TryOnce(f, w, i, attempt, offset, size, start);
      if w.attempt(i, attempt).Succeeds? {
        return Some(bytes), attempt;
      }
      attempt := attempt + 1;
    }
    sent, a := None, 0;
  }

  lemma NeverSends(w: World, i: nat)
    requires w.refreshFails(i) || AllFail(w, i, MAX_ATTEMPTS)
    ensures !Sends(w, i)
  {
  }

  /** What the server has accepted for part i. */
  ghost predicate Accepted(w: World, l: Layout, data: Bytes, body: Bytes, i: nat)
    requires |data| == l.total
  {
    var from := BodyFrom(w, l, i);
    Sends(w, i) && from <= l.total && body == data[from..Min(from + l.Size(i), l.total)]
  }

  ghost predicate AllAccepted(w: World, l: Layout, data: Bytes, accepted: seq<Bytes>)
    requires |data| == l.total
  {
    forall i :: 0 <= i < |accepted| ==> Accepted(w, l, data, accepted[i], i)
  }

  /** One round: part i, from the offset and in the size the loop computes. */
  method SendNth(f: LocalFile, w: World, i: nat, partSize: nat, ghost l: Layout) returns (sent: Option<Bytes>)
    requires l.total == |f.data| && l.partSize == partSize > 0 && l.Offset(i) < l.total
    requires !w.refreshFails(i) && f.pos == CursorBefore(w, l, i) <= |f.data|
    modifies f
    ensures sent.None? ==> !Sends(w, i)
    ensures sent.Some? ==> Accepted(w, l, f.data, sent.value, i) && f.pos == CursorBefore(w, l, i + 1) <= |f.data|
  {
    var offset := i * partSize;
    var thisSize := partSize;
    var remain := |f.data| - offset;
    if thisSize > remain {
      thisSize := remain;
    }
    assert offset == l.Offset(i) && thisSize == l.Size(i);
    sent := SendSection(f, w, i, offset, thisSize, l);
  }

  method SendSection(f: LocalFile, w: World, i: nat, offset: nat, size: nat, ghost l: Layout)
    returns (sent: Option<Bytes>)
    requires l.total == |f.data| && l.partSize > 0 && l.Offset(i) < l.total
    requires offset == l.Offset(i) && size == l.Size(i)
    requires !w.refreshFails(i) && f.pos == CursorBefore(w, l, i) <= |f.data|
    modifies f
    ensures sent.None? ==> !Sends(w, i)
    ensures sent.Some? ==> Accepted(w, l, f.data, sent.value, i) && f.pos == CursorBefore(w, l, i + 1) <= |f.data|
  {
    ghost var a;
    sent, a := SendPart(f, w, i, offset, size);
    if sent.None? {
      NeverSends(w, i);
    } else {
      SectionIsAccepted(w, l, f.data, sent.value, i, a, f.pos);
    }
  }

  lemma SectionIsAccepted(w: World, l: Layout, data: Bytes, body: Bytes, i: nat, a: nat, pos: nat)
    requires |data| == l.total && l.partSize > 0 && l.Offset(i) < l.total && FirstSuccess(w, i, a)
    requires var from := ReadsFrom(w, i, a, CursorBefore(w, l, i), l.Offset(i), l.Size(i), l.total);
             from <= l.total && pos == Min(from + l.Size(i), l.total) && body == data[from..pos]
    ensures Accepted(w, l, data, body, i) && pos == CursorBefore(w, l, i + 1)
  {
    WorkingAttemptIs(w, i, 0, a);
  }

  /** A body read from the part's offset is the part. */
  lemma RightBody(w: World, l: Layout, data: Bytes, body: Bytes, i: nat)
    requires |data| == l.total && l.partSize > 0 && i < |SplitParts(data, l.partSize)|
    requires Accepted(w, l, data, body, i)
    ensures l.Offset(i) < l.total
    ensures BodyFrom(w, l, i) == l.Offset(i) ==> body == SplitParts(data, l.partSize)[i]
    ensures (forall a :: !w.seekFails(i, a)) ==> BodyFrom(w, l, i) == l.Offset(i)
  {
    PartIs(data, l.partSize, i);
    PartStarts(data, l.partSize, i);
  }

  lemma PartStarts(data: Bytes, size: int, i: nat)
    requires size > 0 && i < |SplitParts(data, size)|
    ensures i * size < |data|
  {
    PartCount(data, size);
    TimesOrder(i, |SplitParts(data, size)| - 1, size);
  }

  /** doNormalUpload before the final call, on a file whose cursor is anywhere. The server answers one URL
      per part asked for. It accepts, for each part, that many bytes from where the attempt that succeeded
      began to read, which are the part when no seek fails, whatever the failed attempts read. */
  method DoNormalUpload(f: LocalFile, quotient: real, w: World) returns (ok: bool, accepted: seq<Bytes>)
    requires |f.data| < TWO53 && f.pos <= |f.data|
    requires FloatQuotient(|f.data|, CalPartSize(|f.data|), quotient)
    modifies f
    ensures CalPartSize(|f.data|) > 0
    ensures var parts := SplitParts(f.data, CalPartSize(|f.data|));
            var l := Layout(|f.data|, CalPartSize(|f.data|), old(f.pos));
            && |accepted| <= |parts|
            && AllAccepted(w, l, f.data, accepted)
            && (forall i :: 0 <= i < |accepted| && BodyFrom(w, l, i) == l.Offset(i) ==> accepted[i] == parts[i])
            && ((forall i, a :: !w.seekFails(i, a)) ==> accepted <= parts)
            && (ok <==> forall i :: 0 <= i < |parts| ==> Sends(w, i))
            && (ok ==> |accepted| == |parts|)
  {
    var partSize := CalPartSize(|f.data|);
    var count := CalPartCount(quotient);
    PartCountIsNumberOfParts(f.data, quotient);
    forall i | 0 <= i < count ensures i * partSize < |f.data| { PartStarts(f.data, partSize, i); }
    ghost var l := Layout(|f.data|, partSize, f.pos);
    ok, accepted := SendAll(f, w, count, partSize, l);
    AcceptedParts(w, l, f.data, accepted);
  }

  /** The first n parts are accepted. */
  ghost predicate SendsTo(w: World, n: nat) {
    forall i :: 0 <= i < n ==> Sends(w, i)
  }

  /** The loop over the parts. */
  method SendAll(f: LocalFile, w: World, count: nat, partSize: nat, ghost l: Layout)
    returns (ok: bool, accepted: seq<Bytes>)
    requires l == Layout(|f.data|, partSize, f.pos) && partSize > 0 && f.pos <= |f.data|
    requires forall i :: 0 <= i < count ==> l.Offset(i) < l.total
    modifies f
    ensures |accepted| <= count && AllAccepted(w, l, f.data, accepted)
    ensures ok <==> SendsTo(w, count)
    ensures ok ==> |accepted| == count
  {
    accepted := [];
    var i := 0;
    while i < count
      invariant 0 <= i <= count && |accepted| == i && f.pos == CursorBefore(w, l, i) <= |f.data|
      invariant AllAccepted(w, l, f.data, accepted) && SendsTo(w, i)
    {
      if w.refreshFails(i) {
        NeverSends(w, i);
        NotAllSent(w, i, count);
        return false, accepted;
      }
      assert l.Offset(i) < l.total;
      var sent := SendNth(f, w, i, partSize, l);
      if sent.None? {
        NotAllSent(w, i, count);
        return false, accepted;
      }
      OneMoreAccepted(w, l, f.data, accepted, sent.value);
      accepted := accepted + [sent.value];
      i := i + 1;
    }
    ok := true;
  }

  lemma NotAllSent(w: World, i: nat, n: nat)
    requires i < n && !Sends(w, i)
    ensures !SendsTo(w, n)
  {
  }

  lemma OneMoreAccepted(w: World, l: Layout, data: Bytes, accepted: seq<Bytes>, body: Bytes)
    requires |data| == l.total && AllAccepted(w, l, data, accepted) && SendsTo(w, |accepted|)
    requires Accepted(w, l, data, body, |accepted|)
    ensures AllAccepted(w, l, data, accepted + [body]) && SendsTo(w, |accepted| + 1)
  {
  }

  /** The accepted parts are right one by one exactly where they were read from the right place, and all are
      when no seek fails. */
  lemma AcceptedParts(w: World, l: Layout, data: Bytes, accepted: seq<Bytes>)
    requires |data| == l.total && l.partSize > 0 && AllAccepted(w, l, data, accepted)
    requires |accepted| <= |SplitParts(data, l.partSize)|
    ensures var parts := SplitParts(data, l.partSize);
            forall i :: 0 <= i < |accepted| && BodyFrom(w, l, i) == l.Offset(i) ==> accepted[i] == parts[i]
    ensures (forall i, a :: !w.seekFails(i, a)) ==> accepted <= SplitParts(data, l.partSize)
  {
    forall i | 0 <= i < |accepted|
      ensures BodyFrom(w, l, i) == l.Offset(i) ==> accepted[i] == SplitParts(data, l.partSize)[i]
      ensures (forall a :: !w.seekFails(i, a)) ==> BodyFrom(w, l, i) == l.Offset(i)
    {
      RightBody(w, l, data, accepted[i], i);
    }
  }
}
