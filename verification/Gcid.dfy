/** The GCID hasher: SHA-1 over the SHA-1s of the blocks of a file, written in pieces. The hash
    function is a parameter; everything holds for any. */
module Gcid {
  import opened Basics
  import opened Floats
  import opened Parts

  type Hash = Bytes -> Bytes

  const MIN_BLOCK: int := 0x40000
  const MAX_BLOCK: int := 0x200000

  /** The block size for a file of j bytes; fj is j converted to a double. The divisor is a power of
      two, so the division is exact. */
  method CalcBlockSize(j: int, fj: real) returns (psize: int)
    requires Nearest(j as real, fj)
    ensures psize in {0x40000, 0x80000, 0x100000, 0x200000}
    ensures j <= 0x200 * psize || psize == MAX_BLOCK
    ensures psize == MIN_BLOCK || j > 0x200 * (psize / 2)
  {
    psize := 0x40000;
    while fj / (psize as real) > 512.0 && psize < 0x200000
      invariant psize in {0x40000, 0x80000, 0x100000, 0x200000}
      invariant psize == MIN_BLOCK || j > 0x200 * (psize / 2)
      decreases 0x200000 - psize
    {
      ComparesAsIntegers(j, fj, psize);
      psize := psize * 2;
    }
    ComparesAsIntegers(j, fj, psize);
  }

  /** The comparison in floating point is the comparison of the integers. */
  lemma ComparesAsIntegers(j: int, fj: real, psize: int)
    requires Nearest(j as real, fj) && psize in {0x40000, 0x80000, 0x100000, 0x200000}
    ensures fj / (psize as real) > 512.0 <==> j > 0x200 * psize
  {
    var edge := 0x200 * psize;
    RoundingKeepsSide(j as real, fj, edge);
    RoundingKeepsSide(j as real, fj, edge + 1);
    QuotientAbove(fj, psize as real, 512.0);
  }

  lemma QuotientAbove(a: real, b: real, c: real)
    requires b > 0.0
    ensures a / b > c <==> a > c * b
  {
    var q := a / b;
    assert q * b == a;
    CancelFactor(q, c, b);
    CancelFactor(c, q, b);
  }

  // ---------- what has been hashed ----------

  /** What the outer hash has received once data is written: the hashes of its complete blocks. The
      first block is complete after room bytes, the others after bs. */
  function Outer(sha: Hash, bs: nat, room: nat, data: Bytes): Bytes
    requires 0 < room <= bs
    decreases |data|
  {
    if |data| < room then [] else sha(data[..room]) + Outer(sha, bs, bs, data[room..])
  }

  /** What the block hash has received since the last complete block. */
  function Tail(bs: nat, room: nat, data: Bytes): Bytes
    requires 0 < room <= bs
    decreases |data|
  {
    if |data| < room then data else Tail(bs, bs, data[room..])
  }

  /** How far into its block the hasher believes to be. */
  function OffsetAt(bs: nat, room: nat, data: Bytes): (offset: nat)
    requires 0 < room <= bs
    ensures offset < bs
    decreases |data|
  {
    if |data| < room then bs - room + |data| else OffsetAt(bs, bs, data[room..])
  }

  /** The digest of data by a hasher whose first block takes room bytes. */
  function Digest(sha: Hash, bs: nat, room: nat, data: Bytes): Bytes
    requires 0 < room <= bs
  {
    sha(Outer(sha, bs, room, data) + (if OffsetAt(bs, room, data) != 0 then sha(Tail(bs, room, data)) else []))
  }

  /** Writing a piece that fits the current block. */
  lemma {:induction false} Extend(sha: Hash, bs: nat, room: nat, data: Bytes, piece: Bytes)
    requires 0 < room <= bs && OffsetAt(bs, room, data) + |piece| <= bs
    ensures OffsetAt(bs, room, data) + |piece| < bs ==>
              && Outer(sha, bs, room, data + piece) == Outer(sha, bs, room, data)
              && Tail(bs, room, data + piece) == Tail(bs, room, data) + piece
              && OffsetAt(bs, room, data + piece) == OffsetAt(bs, room, data) + |piece|
    ensures OffsetAt(bs, room, data) + |piece| == bs ==>
              && Outer(sha, bs, room, data + piece) == Outer(sha, bs, room, data) + sha(Tail(bs, room, data) + piece)
              && Tail(bs, room, data + piece) == []
              && OffsetAt(bs, room, data + piece) == 0
    decreases |data|
  {
    var all := data + piece;
    if |data| < room {
      if |all| == room {
        assert all[..room] == all && all[room..] == [];
      }
    } else {
      Extend(sha, bs, bs, data[room..], piece);
      assert all[..room] == data[..room] && all[room..] == data[room..] + piece;
    }
  }

  // ---------- the hasher ----------

  class Hasher {
    const sha: Hash
    const blockSize: int
    var hash: Bytes        // what the outer hash has received
    var hashState: Bytes   // what the block hash has received
    var offset: int
    ghost var data: Bytes  // written since the last reset
    ghost var room: nat    // what the first block took, or takes

    ghost predicate Valid()
      reads this
    {
      && 0 < room <= blockSize
      && hash == Outer(sha, blockSize, room, data)
      && hashState == Tail(blockSize, room, data)
      && offset == OffsetAt(blockSize, room, data)
    }

    constructor (sha: Hash, blockSize: int)
      requires blockSize > 0
      ensures this.sha == sha && this.blockSize == blockSize
      ensures Valid() && data == [] && room == blockSize && offset == 0
    {
      this.sha, this.blockSize := sha, blockSize;
      hash, hashState, offset := [], [], 0;
      data, room := [], blockSize;
    }

    /** However the data is cut, the state depends only on all that was written. */
    method Write(piece: Bytes) returns (n: int)
      requires Valid()
      modifies this
      ensures Valid() && data == old(data) + piece && room == old(room)
      ensures n == |piece| && 0 <= offset < blockSize
    {
      n := |piece|;
      var p := piece;
      assert old(data) + piece == data + p;
      while |p| > 0
        invariant Valid() && room == old(room) && data + p == old(data) + piece
        invariant 0 <= offset < blockSize
        decreases |p|
      {
        if offset < blockSize {
          var lastSize := blockSize - offset;
          if lastSize > |p| {
            lastSize := |p|;
          }
          Extend(sha, blockSize, room, data, p[..lastSize]);
          assert data + p == data + p[..lastSize] + p[lastSize..];
          hashState := hashState + p[..lastSize];
          offset := offset + lastSize;
          data := data + p[..lastSize];
          p := p[lastSize..];
        }
        if offset >= blockSize {
          hash := hash + sha(hashState);
          hashState := [];
          offset := 0;
        }
      }
      assert data + p == data;
    }

    /** The digest so far. It borrows the outer hash for the last block and puts it back. */
    method Sum(b: Bytes) returns (digest: Bytes)
      requires Valid()
      modifies this`hash
      ensures digest == b + Digest(sha, blockSize, room, data)
      ensures hash == old(hash) && Valid()
    {
      var saved := hash;
      if offset != 0 {
        hash := hash + sha(hashState);
      }
      digest := b + sha(hash);
      assert hash == Outer(sha, blockSize, room, data) + (if offset != 0 then sha(hashState) else []);
      hash := saved;
    }

    /** Clears both hashes but not the offset: the next block is cut short by what was in the last. */
    method Reset()
      requires Valid()
      modifies this
      ensures Valid() && data == [] && room == blockSize - old(offset) && offset == old(offset)
    {
      hash := [];
      hashState := [];
      data, room := [], blockSize - offset;
    }
  }

  method NewGcid(sha: Hash, size: int, fsize: real) returns (h: Hasher)
    requires Nearest(size as real, fsize)
    ensures fresh(h) && h.sha == sha && h.Valid() && h.data == [] && h.room == h.blockSize
    ensures size <= 0x200 * h.blockSize || h.blockSize == MAX_BLOCK
    ensures h.blockSize == MIN_BLOCK || size > 0x200 * (h.blockSize / 2)
  {
    var bs := CalcBlockSize(size, fsize);
    h := new Hasher(sha, bs);
  }

  // ---------- what the digest is ----------

  function HashAll(sha: Hash, blocks: seq<Bytes>): Bytes {
    if blocks == [] then [] else sha(blocks[0]) + HashAll(sha, blocks[1..])
  }

  lemma {:induction false} OuterIsBlocks(sha: Hash, bs: nat, data: Bytes)
    requires bs > 0
    ensures Outer(sha, bs, bs, data) + (if OffsetAt(bs, bs, data) != 0 then sha(Tail(bs, bs, data)) else [])
            == HashAll(sha, SplitParts(data, bs))
    decreases |data|
  {
    if |data| >= bs {
      OuterIsBlocks(sha, bs, data[bs..]);
      var last := if OffsetAt(bs, bs, data) != 0 then sha(Tail(bs, bs, data)) else [];
      var parts := SplitParts(data, bs);
      assert parts[1..] == SplitParts(data[bs..], bs);
      assert sha(data[..bs]) + Outer(sha, bs, bs, data[bs..]) + last
          == sha(data[..bs]) + (Outer(sha, bs, bs, data[bs..]) + last);
    } else if data != [] {
      assert data[..|data|] == data && data[|data|..] == [];
      assert SplitParts(data, bs) == [data];
      assert HashAll(sha, [data]) == sha(data) + HashAll(sha, []);
    }
  }

  /** A fresh hasher computes the hash of the hashes of the consecutive blocks, the last one partial. */
  lemma DigestIsGcid(sha: Hash, bs: nat, data: Bytes)
    requires bs > 0
    ensures Digest(sha, bs, bs, data) == sha(HashAll(sha, SplitParts(data, bs)))
  {
    OuterIsBlocks(sha, bs, data);
  }

  /** Writes the pieces one after the other, asking for the digest after each. */
  method WriteAll(h: Hasher, pieces: seq<Bytes>)
    requires h.Valid()
    modifies h
    ensures h.Valid() && h.room == old(h.room) && h.data == old(h.data) + Flatten(pieces)
  {
    var k := 0;
    assert pieces[..0] == [] && old(h.data) + [] == old(h.data);
    while k < |pieces|
      invariant 0 <= k <= |pieces|
      invariant h.Valid() && h.room == old(h.room) && h.data == old(h.data) + Flatten(pieces[..k])
    {
      var n := h.Write(pieces[k]);
      var soFar := h.Sum([]);
      OnePieceMore(pieces, k, old(h.data));
      k := k + 1;
    }
    assert pieces[..k] == pieces;
  }

  lemma OnePieceMore(pieces: seq<Bytes>, k: nat, before: Bytes)
    requires k < |pieces|
    ensures before + Flatten(pieces[..k]) + pieces[k] == before + Flatten(pieces[..k + 1])
  {
    FlattenSnoc(pieces[..k], pieces[k]);
    assert pieces[..k + 1] == pieces[..k] + [pieces[k]];
  }

  /** The digest by a fresh hasher of a file written in any pieces, with the digest asked for after
      each of them. */
  method HashPieces(h: Hasher, pieces: seq<Bytes>) returns (digest: Bytes)
    requires h.Valid() && h.data == [] && h.room == h.blockSize
    modifies h
    ensures digest == h.sha(HashAll(h.sha, SplitParts(Flatten(pieces), h.blockSize)))
  {
    WriteAll(h, pieces);
    assert h.data == Flatten(pieces);
    DigestIsGcid(h.sha, h.blockSize, h.data);
    digest := h.Sum([]);
  }

  // ---------- reset ----------

  ghost predicate DigestsLikeFresh(bs: nat, offset: nat)
    requires offset < bs
  {
    forall sha: Hash, data: Bytes {:trigger Digest(sha, bs, bs, data)} ::
      Digest(sha, bs, bs - offset, data) == Digest(sha, bs, bs, data)
  }

  /** The number of bytes, as one byte. */
  function CountHash(data: Bytes): Bytes { [(|data| % 256) as Byte] }

  /** A hasher that was reset digests like a fresh one exactly when the reset found it at the start
      of a block. */
  lemma ResetIsFreshIff(bs: nat, offset: nat)
    requires offset < bs
    ensures DigestsLikeFresh(bs, offset) <==> offset == 0
  {
    if offset > 0 {
      var data: Bytes := seq(bs, i => 0 as Byte);
      OneBlockFresh(bs, data);
      TwoBlocksSkewed(bs, offset, data);
      assert Digest(CountHash, bs, bs - offset, data) != Digest(CountHash, bs, bs, data);
    }
  }

  lemma OneBlockFresh(bs: nat, data: Bytes)
    requires bs > 0 && |data| == bs
    ensures Digest(CountHash, bs, bs, data) == [1 as Byte]
  {
    assert data[bs..] == [];
    assert Outer(CountHash, bs, bs, []) == [] && OffsetAt(bs, bs, data) == 0;
    assert |Outer(CountHash, bs, bs, data) + []| == 1;
  }

  lemma TwoBlocksSkewed(bs: nat, offset: nat, data: Bytes)
    requires 0 < offset < bs && |data| == bs
    ensures Digest(CountHash, bs, bs - offset, data) == [2 as Byte]
  {
    var room := bs - offset;
    assert |data[room..]| == offset;
    assert Outer(CountHash, bs, bs, data[room..]) == [];
    assert OffsetAt(bs, room, data) == offset;
    assert |Outer(CountHash, bs, room, data) + CountHash(Tail(bs, room, data))| == 2;
  }
}
