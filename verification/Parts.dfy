/** Cutting a file into parts of a fixed size, the common ground of all uploads and block hashes. */
module Parts {
  import opened Basics

  /** The parts of a file: size bytes each, the last one what is left. */
  function SplitParts(file: Bytes, size: int): seq<Bytes>
    requires size > 0
  {
    if file == [] then []
    else
      var n := Min(size, |file|);
      [file[..n]] + SplitParts(file[n..], size)
  }

  /** The parts put together are the file. */
  lemma {:induction false} PartsAreTheFile(file: Bytes, size: int)
    requires size > 0
    ensures Flatten(SplitParts(file, size)) == file
  {
    if file != [] {
      var n := Min(size, |file|);
      PartsAreTheFile(file[n..], size);
      FlattenCons(file[..n], SplitParts(file[n..], size));
      assert file[..n] + file[n..] == file;
    }
  }

  /** There are as many parts as needed, so the last one is not empty. */
  lemma {:induction false} PartCount(file: Bytes, size: int)
    requires size > 0
    ensures var n := |SplitParts(file, size)|; (n - 1) * size < |file| <= n * size || n == |file| == 0
  {
    if |file| > size {
      PartCount(file[size..], size);
      var n := |SplitParts(file, size)|;
      TimesNext(n - 1, size);
      TimesNext(n - 2, size);
    } else if file != [] {
      assert SplitParts(file[|file|..], size) == [];
    }
  }

  /** Part number k is the bytes from k * size on. */
  lemma {:induction false} PartPosition(file: Bytes, size: int, k: nat)
    requires size > 0 && k < |SplitParts(file, size)|
    ensures 0 <= k * size <= Min((k + 1) * size, |file|)
    ensures SplitParts(file, size)[k] == file[k * size..Min((k + 1) * size, |file|)]
  {
    TimesNext(k, size);
    if k > 0 {
      PartsAfterFirst(file, size);
      PartPosition(file[size..], size, k - 1);
      TimesNext(k - 1, size);
      SliceOfDrop(file, size, (k - 1) * size, Min(k * size, |file| - size));
    }
  }

  lemma PartsAfterFirst(file: Bytes, size: int)
    requires size > 0 && |SplitParts(file, size)| > 1
    ensures |file| > size && SplitParts(file, size)[1..] == SplitParts(file[size..], size)
  {
    assert file[|file|..] == [];
  }
}
