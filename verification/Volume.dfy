/** A mounted volume: the cache and the globals set from the volume id block. */
module Volumes {
  import opened Bytes
  import opened BufferCache

  const BMHDRSZ: nat := 16
  /** The largest volume that create_disk accepts. */
  const MAX_BLOCKS: nat := 4194304

  // ---------------------------------------------------------------
  // Cluster arithmetic
  // ---------------------------------------------------------------

  /** 1 << cf: blocks in a cluster. */
  function Size(cf: nat): (n: nat)
    ensures n > 0
  {
    if cf == 0 then 1 else 2 * Size(cf - 1)
  }

  /** x << cf */
  function Shl(x: nat, cf: nat): nat
    decreases cf
  {
    if cf == 0 then x else Shl(2 * x, cf - 1)
  }

  /** x >> cf */
  function Shr(x: nat, cf: nat): nat
  {
    if cf == 0 then x else Shr(x / 2, cf - 1)
  }

  /** x & clmask, where clmask is (1 << cf) - 1 */
  function Low(x: nat, cf: nat): (r: nat)
    ensures r < Size(cf)
  {
    if cf == 0 then 0 else 2 * Low(x / 2, cf - 1) + x % 2
  }

  /** Number of clusters that hold n blocks: n >> cf, plus one if n & clmask. */
  function Clusters(n: nat, cf: nat): nat
  {
    if Low(n, cf) != 0 then Shr(n, cf) + 1 else Shr(n, cf)
  }

  lemma {:induction false} ShlDouble(x: nat, cf: nat)
    ensures Shl(2 * x, cf) == 2 * Shl(x, cf)
    decreases cf
  {
    if cf > 0 { ShlDouble(2 * x, cf - 1); }
  }

  /** A block number is its cluster's first block plus a position within the cluster. */
  lemma {:induction false} SplitBlock(x: nat, cf: nat)
    ensures x == Shl(Shr(x, cf), cf) + Low(x, cf)
  {
    if cf > 0 {
      SplitBlock(x / 2, cf - 1);
      ShlDouble(Shr(x, cf), cf - 1);
    }
  }

  lemma {:induction false} JoinBlock(c: nat, r: nat, cf: nat)
    requires r < Size(cf)
    ensures Shr(Shl(c, cf) + r, cf) == c && Low(Shl(c, cf) + r, cf) == r
  {
    if cf > 0 {
      ShlDouble(c, cf - 1);
      JoinBlock(c, r / 2, cf - 1);
      assert (Shl(c, cf) + r) / 2 == Shl(c, cf - 1) + r / 2;
    }
  }

  lemma {:induction false} ShlSucc(c: nat, cf: nat)
    ensures Shl(c + 1, cf) == Shl(c, cf) + Size(cf)
  {
    if cf > 0 {
      ShlDouble(c, cf - 1);
      ShlDouble(c + 1, cf - 1);
      ShlSucc(c, cf - 1);
    }
  }

  lemma {:induction false} ShlMonotone(c: nat, d: nat, cf: nat)
    requires c <= d
    ensures Shl(c, cf) <= Shl(d, cf)
    ensures c < d ==> Shl(c, cf) + Size(cf) <= Shl(d, cf)
  {
    if cf > 0 {
      ShlDouble(c, cf - 1);
      ShlDouble(d, cf - 1);
      ShlMonotone(c, d, cf - 1);
    }
  }

  lemma {:induction false} ShlBounds(c: nat, cf: nat)
    ensures c <= Shl(c, cf) && (c == 0 ==> Shl(c, cf) == 0)
    decreases cf
  {
    if cf > 0 { ShlBounds(2 * c, cf - 1); }
  }

  lemma {:induction false} ShrBound(x: nat, cf: nat)
    ensures Shr(x, cf) <= x
  {
    if cf > 0 { ShrBound(x / 2, cf - 1); }
  }

  /** Clusters and their first blocks are ordered alike. */
  lemma {:induction false} ShrOrder(b: nat, c: nat, cf: nat)
    ensures Shr(b, cf) < c <==> b < Shl(c, cf)
  {
    SplitBlock(b, cf);
    if Shr(b, cf) < c { ShlMonotone(Shr(b, cf), c, cf); } else { ShlMonotone(c, Shr(b, cf), cf); }
  }

  lemma {:induction false} ShlAdd(c: nat, d: nat, cf: nat)
    ensures Shl(c + d, cf) == Shl(c, cf) + Shl(d, cf)
    decreases cf
  {
    if cf > 0 {
      ShlAdd(2 * c, 2 * d, cf - 1);
      assert 2 * (c + d) == 2 * c + 2 * d;
    }
  }

  /** The next block lies in the same cluster unless this is the cluster's last. */
  lemma NextInCluster(b: nat, cf: nat)
    requires Low(b, cf) != Size(cf) - 1
    ensures Shr(b + 1, cf) == Shr(b, cf) && Low(b + 1, cf) == Low(b, cf) + 1
  {
    SplitBlock(b, cf);
    JoinBlock(Shr(b, cf), Low(b, cf) + 1, cf);
  }

  /** One more block needs at most one more cluster. */
  lemma ClustersStep(n: nat, cf: nat)
    ensures Clusters(n, cf) <= Clusters(n + 1, cf) <= Clusters(n, cf) + 1
  {
    SplitBlock(n, cf);
    if Low(n, cf) == Size(cf) - 1 {
      ShlSucc(Shr(n, cf), cf);
      JoinBlock(Shr(n, cf) + 1, 0, cf);
    } else {
      NextInCluster(n, cf);
    }
  }

  /** A whole cluster more. */
  lemma OneMoreCluster(n: nat, cf: nat)
    ensures Clusters(n + Size(cf), cf) == Clusters(n, cf) + 1
  {
    SplitBlock(n, cf);
    ShlSucc(Shr(n, cf), cf);
    JoinBlock(Shr(n, cf) + 1, Low(n, cf), cf);
  }

  lemma {:induction false} ClustersMonotone(m: nat, n: nat, cf: nat)
    requires m <= n
    ensures Clusters(m, cf) <= Clusters(n, cf)
  {
    if m < n {
      ClustersStep(n - 1, cf);
      ClustersMonotone(m, n - 1, cf);
    }
  }

  /** Block b of a file of n blocks lies in one of its clusters. */
  lemma {:induction false} BlockInClusters(b: nat, n: nat, cf: nat)
    requires b < n
    ensures Shr(b, cf) < Clusters(n, cf)
  {
    SplitBlock(n, cf);
    ShlSucc(Shr(n, cf), cf);
    ShrOrder(b, Clusters(n, cf), cf);
  }

  // ---------------------------------------------------------------
  // Bitmap sections: a 16-byte header, then bits packed MSB first
  // ---------------------------------------------------------------

  /** The scan cursor after i steps, in three parts: bit within the byte (the number of times
      the mask was halved), byte within the block, and block within the section. */
  function BitPos(i: nat): (k: nat)
    ensures k < 8
  {
    if i == 0 then 0 else if BitPos(i - 1) < 7 then BitPos(i - 1) + 1 else 0
  }

  function BitOffset(i: nat): (offs: nat)
    ensures offs < 512
  {
    if i == 0 then BMHDRSZ
    else if BitPos(i - 1) < 7 then BitOffset(i - 1)
    else if BitOffset(i - 1) < 511 then BitOffset(i - 1) + 1
    else 0
  }

  function BitBlock(i: nat): nat
  {
    if i == 0 then 0
    else if BitPos(i - 1) == 7 && BitOffset(i - 1) == 511 then BitBlock(i - 1) + 1
    else BitBlock(i - 1)
  }

  /** The cursor reaches the closed-form address used for marking and freeing. */
  lemma {:induction false} CursorClosedForm(i: nat)
    ensures BitPos(i) == i % 8
    ensures BitOffset(i) == (BMHDRSZ + i / 8) % 512
    ensures BitBlock(i) == (BMHDRSZ + i / 8) / 512
  {
    if i > 0 {
      CursorClosedForm(i - 1);
      if (i - 1) % 8 < 7 {
        assert i / 8 == (i - 1) / 8 && i % 8 == (i - 1) % 8 + 1;
      } else {
        assert i / 8 == (i - 1) / 8 + 1 && i % 8 == 0;
      }
    }
  }

  /** The mask of 12 bits in the closed-form address never truncates on an accepted volume. */
  lemma {:induction false} MaskedAddress(i: nat)
    requires i <= MAX_BLOCKS
    ensures BitPos(i) == i % 8
    ensures BitOffset(i) == (i / 8 + BMHDRSZ) % 512
    ensures BitBlock(i) == ((i / 8 + BMHDRSZ) / 512) % 4096
  {
    CursorClosedForm(i);
    SmallQuotient(i / 8 + BMHDRSZ, 4096);
  }

  lemma SmallQuotient(x: nat, m: nat)
    requires x < 512 * m
    ensures (x / 512) % m == x / 512
  {
    var q, r := x / 512, x % 512;
    assert x == 512 * q + r;
    assert q < m;
    SmallModulus(q, m);
  }

  lemma SmallModulus(q: nat, m: nat)
    requires q < m
    ensures q % m == q
  {
  }

  lemma {:induction false} AddressMonotone(i: nat, j: nat)
    requires i <= j
    ensures BitBlock(i) <= BitBlock(j)
  {
    CursorClosedForm(i);
    CursorClosedForm(j);
  }

  /** One byte of one block is assigned. */
  function WithByte(vol: Image, b: nat, offs: nat, x: byte): (r: Image)
    requires b < |vol| && offs < 512
    ensures |r| == |vol|
  {
    vol[b := vol[b][offs := x]]
  }

  lemma WithByteFacts(vol: Image, b: nat, offs: nat, x: byte, y: byte)
    requires b < |vol| && offs < 512
    ensures WithByte(vol, b, offs, vol[b][offs]) == vol
    ensures WithByte(WithByte(vol, b, offs, x), b, offs, y) == WithByte(vol, b, offs, y)
    ensures WithByte(vol, b, offs, x)[b][offs] == x
  {
    assert vol[b][offs := vol[b][offs]] == vol[b];
    assert vol[b][offs := x][offs := y] == vol[b][offs := y];
    assert vol[b := vol[b]] == vol;
    assert WithByte(WithByte(vol, b, offs, x), b, offs, y) == WithByte(vol, b, offs, y);
  }

  /** Bit i of the section that starts at block bm. */
  predicate Bit(vol: Image, bm: nat, i: nat)
  {
    bm + BitBlock(i) < |vol| && BitOf(vol[bm + BitBlock(i)][BitOffset(i)], BitPos(i))
  }

  function WithBit(vol: Image, bm: nat, i: nat, v: bool): (r: Image)
    ensures |r| == |vol|
  {
    var b, offs := bm + BitBlock(i), BitOffset(i);
    if b < |vol| then WithByte(vol, b, offs, WithBitOf(vol[b][offs], BitPos(i), v)) else vol
  }

  /** Writing one bit changes that bit and no other. */
  lemma {:induction false} WithBitBit(vol: Image, bm: nat, i: nat, v: bool, j: nat)
    requires bm + BitBlock(i) < |vol|
    ensures Bit(WithBit(vol, bm, i, v), bm, j) == if j == i then v else Bit(vol, bm, j)
  {
    CursorClosedForm(i);
    CursorClosedForm(j);
    assert i / 8 == j / 8 && i % 8 == j % 8 ==> i == j;
  }

  // ---------------------------------------------------------------
  // The volume
  // ---------------------------------------------------------------

  class Volume {
    const cache: Cache
    const clfactor: nat
    const bmblock: nat
    const ixblock: nat
    /** The clusters below this one hold the boot blocks, the index file and the bitmaps. */
    ghost const fileArea: nat

    constructor (cache: Cache, clfactor: nat, bmblock: nat, ixblock: nat, ghost fileArea: nat)
      ensures this.cache == cache && this.clfactor == clfactor && this.bmblock == bmblock && this.ixblock == ixblock
      ensures this.fileArea == fileArea
    {
      this.cache := cache;
      this.clfactor := clfactor;
      this.bmblock := bmblock;
      this.ixblock := ixblock;
      this.fileArea := fileArea;
    }

    function NBlocks(): nat { cache.nblocks }

    function NClusters(): nat
    {
      Shr(cache.nblocks, clfactor)
    }

    /** The volume is mounted and the bits that a scan may reach lie inside it. */
    ghost predicate Valid()
      reads cache, cache.buffer
    {
      && cache.Valid()
      && bmblock + BitBlock(cache.nblocks) < cache.nblocks <= MAX_BLOCKS
    }

    /** get_block of a block inside the volume while fewer than 30 accesses are outstanding. */
    method Get(b: nat) returns (i: nat)
      requires Valid() && b < cache.nblocks && |cache.pins| < NBUFFERS
      modifies cache, cache.buffer
      ensures Valid() && cache.Kept(old(cache.pins))
      ensures cache.logical == old(cache.logical)
      ensures cache.pins == old(cache.pins) + multiset{b}
      ensures i < NBUFFERS && cache.Owns(i, b)
    {
      CountAtMostSize(cache.pins, b);
      var j := cache.GetBlock(b);
      i := j;
    }

    /** new_block under the same conditions. */
    method GetNew(b: nat) returns (i: nat)
      requires Valid() && b < cache.nblocks && |cache.pins| < NBUFFERS
      modifies cache, cache.buffer
      ensures Valid() && cache.Kept(old(cache.pins))
      ensures cache.logical == old(cache.logical)[b := ZeroBlock()]
      ensures cache.pins == old(cache.pins) + multiset{b}
      ensures i < NBUFFERS && cache.Owns(i, b)
    {
      CountAtMostSize(cache.pins, b);
      var j := cache.NewBlock(b);
      i := j;
    }
  }

  lemma CountAtMostSize(m: multiset<nat>, b: nat)
    ensures m[b] <= |m|
  {
    assert m == m[b := 0] + multiset{}[b := m[b]];
  }
}
