/** The hashing pass of the baidu_netdisk upload: one reading of the file feeds the hash of the whole
    file, the hash of every slice, and the hash of its first 256 KiB. */
module BaiduUpload {
  import opened Basics
  import opened Floats
  import opened Parts

  type Hash = Bytes -> Bytes

  const MIB: int := 1024 * 1024
  const FIRST_SLICE_SIZE: int := 256 * 1024
  const MAX_SLICE_NUM: int := 2048

  function GetSliceSize(vipType: int): (size: int)
    ensures size > 0
  {
    if vipType == 1 then 16 * MIB else if vipType == 2 then 32 * MIB else 4 * MIB
  }

  /** Number of slices, and the size of the last one, as the upload computes them. */
  function SliceCount(fileSize: int, sliceSize: int): int
    requires sliceSize > 0
  {
    var count := (fileSize + sliceSize - 1) / sliceSize;
    if count == 0 then 1 else count
  }

  function LastSliceSize(fileSize: int, sliceSize: int): int
    requires sliceSize > 0
  {
    if fileSize % sliceSize == 0 then sliceSize else fileSize % sliceSize
  }

  /** The two fit together: full slices and a last one that is neither empty nor too long. */
  lemma SlicesFit(fileSize: int, sliceSize: int)
    requires fileSize > 0 && sliceSize > 0
    ensures var count, last := SliceCount(fileSize, sliceSize), LastSliceSize(fileSize, sliceSize);
            (count - 1) * sliceSize + last == fileSize && 0 < last <= sliceSize && count >= 1
    ensures SliceCount(fileSize, sliceSize) <= MAX_SLICE_NUM <==> fileSize <= MAX_SLICE_NUM * sliceSize
  {
    var c, q, r := sliceSize, fileSize / sliceSize, fileSize % sliceSize;
    assert fileSize == q * c + r;
    TimesNext(q, c);
    TimesNext(q - 1, c);
    if r == 0 {
      ModIs(fileSize + c - 1, c, q, c - 1);
      assert q != 0;
    } else {
      ModIs(fileSize + c - 1, c, q + 1, r - 1);
      assert q + 1 != 0;
    }
    CountAtMostIff(fileSize, c, MAX_SLICE_NUM);
  }

  lemma CountIsNumberOfSlices(file: Bytes, sliceSize: int)
    requires file != [] && sliceSize > 0
    ensures SliceCount(|file|, sliceSize) == |SplitParts(file, sliceSize)|
  {
    var n := |SplitParts(file, sliceSize)|;
    PartCount(file, sliceSize);
    CountAtMostIff(|file|, sliceSize, n);
    CountAtMostIff(|file|, sliceSize, n - 1);
  }

  /** Slice number i as the hashing loop cuts it: sliceSize bytes, the last one lastSliceSize. */
  lemma SliceIs(file: Bytes, sliceSize: int, i: nat)
    requires file != [] && sliceSize > 0 && i < |SplitParts(file, sliceSize)|
    ensures var count, last := |SplitParts(file, sliceSize)|, LastSliceSize(|file|, sliceSize);
            var size := if i == count - 1 then last else sliceSize;
            && size > 0 && 0 <= i * sliceSize && i * sliceSize + size <= |file|
            && SplitParts(file, sliceSize)[i] == file[i * sliceSize..i * sliceSize + size]
            && i * sliceSize + size == (if i == count - 1 then |file| else (i + 1) * sliceSize)
  {
    SlicesFit(|file|, sliceSize);
    CountIsNumberOfSlices(file, sliceSize);
    PartPosition(file, sliceSize, i);
    TimesNext(i, sliceSize);
    var count := |SplitParts(file, sliceSize)|;
    if i < count - 1 { TimesOrder(i + 1, count - 1, sliceSize); }
  }

  // ---------- the writers ----------

  /** Passes on at most `remaining` more bytes and drops the rest, always reporting a full write. */
  class LimitWriter {
    var inner: Bytes       // what the wrapped writer has received
    var remaining: int
    ghost const limit: int
    ghost var seen: Bytes  // all that was written

    ghost predicate Valid()
      reads this
    {
      limit >= 0 && inner == First(seen, limit) && remaining == limit - |inner|
    }

    constructor (limit: int)
      requires limit >= 0
      ensures Valid() && seen == [] && this.limit == limit
    {
      inner, remaining, seen := [], limit, [];
      this.limit := limit;
    }

    method Write(p: Bytes) returns (n: int)
      requires Valid()
      modifies this
      ensures Valid() && seen == old(seen) + p && n == |p|
    {
      seen := seen + p;
      if remaining <= 0 {
        return |p|;
      }
      n := |p|;
      if n > remaining {
        n := remaining;
      }
      inner := inner + p[..n];
      remaining := remaining - n;
      n := |p|;
    }
  }

  function First(data: Bytes, limit: int): Bytes
    requires limit >= 0
  {
    data[..Min(limit, |data|)]
  }

  /** The two plain hashes and the limited one behind one writer. */
  class HashingPass {
    var fileMd5: Bytes
    var sliceMd5: Bytes
    const first: LimitWriter

    ghost predicate Valid()
      reads this, first
    {
      first.Valid() && first.limit == FIRST_SLICE_SIZE && first.seen == fileMd5
    }

    constructor ()
      ensures Valid() && fresh(first) && fileMd5 == [] && sliceMd5 == []
    {
      fileMd5, sliceMd5 := [], [];
      first := new LimitWriter(FIRST_SLICE_SIZE);
    }

    /** io.MultiWriter: a writer that reports less than a full write ends it with an error. */
    method MultiWrite(p: Bytes) returns (ok: bool)
      requires Valid()
      modifies this`fileMd5, this`sliceMd5, first
      ensures Valid() && ok && fileMd5 == old(fileMd5) + p && sliceMd5 == old(sliceMd5) + p
    {
      fileMd5 := fileMd5 + p;
      sliceMd5 := sliceMd5 + p;
      var n := first.Write(p);
      ok := n == |p|;
    }

    /** io.CopyN of the n bytes of file from pos on, in pieces of any sizes. */
    method CopyN(file: Bytes, pos: nat, n: nat, cut: nat -> nat) returns (ok: bool)
      requires Valid() && pos + n <= |file|
      modifies this`fileMd5, this`sliceMd5, first
      ensures Valid() && ok
      ensures fileMd5 == old(fileMd5) + file[pos..pos + n] && sliceMd5 == old(sliceMd5) + file[pos..pos + n]
    {
      var done := 0;
      ok := true;
      while done < n
        invariant Valid() && ok && 0 <= done <= n
        invariant fileMd5 == old(fileMd5) + file[pos..pos + done]
        invariant sliceMd5 == old(sliceMd5) + file[pos..pos + done]
      {
        var k := Min(if cut(done) == 0 then 1 else cut(done), n - done);
        SliceJoin(file, pos, pos + done, pos + done + k);
        ok := MultiWrite(file[pos + done..pos + done + k]);
        if !ok { return; }
        done := done + k;
      }
    }
  }

  /** One round of the hashing loop: the slice hash starts anew, the others go on. */
  method HashSlice(pass: HashingPass, file: Bytes, pos: nat, size: nat, md5: Hash, cut: nat -> nat) returns (sum: Bytes)
    requires pass.Valid() && pos + size <= |file| && pass.fileMd5 == file[..pos]
    modifies pass, pass.first
    ensures pass.Valid() && pass.fileMd5 == file[..pos + size]
    ensures sum == md5(file[pos..pos + size])
  {
    pass.sliceMd5 := [];
    var ok := pass.CopyN(file, pos, size, cut);
    SliceJoin(file, 0, pos, pos + size);
    assert pass.sliceMd5 == file[pos..pos + size];
    sum := md5(pass.sliceMd5);
  }

  lemma OneHashMore(md5: Hash, slices: seq<Bytes>, i: nat)
    requires i < |slices|
    ensures HashEach(md5, slices[..i + 1]) == HashEach(md5, slices[..i]) + [md5(slices[i])]
  {
  }

  function HashEach(md5: Hash, slices: seq<Bytes>): seq<Bytes> {
    seq(|slices|, i requires 0 <= i < |slices| => md5(slices[i]))
  }

  /** None: the file is empty, which the upload refuses. Otherwise the hashes of the slices, of the
      file, and of its beginning, however the reads are cut. */
  method HashFile(file: Bytes, vipType: int, md5: Hash, cut: nat -> nat)
    returns (r: Option<(seq<Bytes>, Bytes, Bytes)>)
    ensures r == None <==> file == []
    ensures file != [] ==>
              r == Some((HashEach(md5, SplitParts(file, GetSliceSize(vipType))), md5(file),
                         md5(First(file, FIRST_SLICE_SIZE))))
  {
    if |file| == 0 {
      return None;
    }
    var fileSize := |file|;
    var sliceSize := GetSliceSize(vipType);
    var count := SliceCount(fileSize, sliceSize);
    var lastSliceSize := LastSliceSize(fileSize, sliceSize);
    ghost var slices := SplitParts(file, sliceSize);
    CountIsNumberOfSlices(file, sliceSize);
    var pass := new HashingPass();
    var blockList: seq<Bytes> := [];
    var pos := 0;
    var i := 0;
    while i < count
      invariant 0 <= i <= count == |slices| && fresh(pass) && fresh(pass.first) && pass.Valid()
      invariant 0 <= pos <= |file| && pos == (if i == count then |file| else i * sliceSize)
      invariant pass.fileMd5 == file[..pos]
      invariant blockList == HashEach(md5, slices[..i])
    {
      SliceIs(file, sliceSize, i);
      var thisSlice := sliceSize;
      if i == count - 1 {
        thisSlice := lastSliceSize;
      }
      var sum := HashSlice(pass, file, pos, thisSlice, md5, cut);
      OneHashMore(md5, slices, i);
      blockList := blockList + [sum];
      pos := pos + thisSlice;
      i := i + 1;
    }
    assert slices[..i] == slices && file[..pos] == file;
    r := Some((blockList, md5(pass.fileMd5), md5(pass.first.inner)));
  }
}
