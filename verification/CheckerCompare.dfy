/** The second half of check_alloc_map: the bitmap on disk is compared with the rebuilt one, bit
    by bit, and corrected. */
module CheckerCompare {
  import opened Bytes
  import opened BufferCache
  import opened Volumes
  import opened Allocation
  import opened VolumeRuns
  import opened CheckerClaims
  import opened Checker

  // ---------------------------------------------------------------
  // One byte
  // ---------------------------------------------------------------

  /** Differing bits among the first n. */
  ghost function DiffBits(a: byte, b: byte, n: nat): nat
    requires n <= 8
  {
    if n == 0 then 0 else DiffBits(a, b, n - 1) + if BitOf(a, n - 1) != BitOf(b, n - 1) then 1 else 0
  }

  lemma {:induction false} SameBits(a: byte, b: byte, n: nat)
    requires n <= 8
    ensures DiffBits(a, b, n) == 0 <==> forall l: nat :: l < n ==> BitOf(a, l) == BitOf(b, l)
  {
    if n > 0 { SameBits(a, b, n - 1); }
  }

  lemma SameByte(a: byte, b: byte)
    ensures DiffBits(a, b, 8) == 0 <==> a == b
  {
    SameBits(a, b, 8);
    if DiffBits(a, b, 8) == 0 { ByteExtensional(a, b); }
  }

  /** The loop over the bits of a byte that differs. */
  method CountBits(a: byte, b: byte) returns (errs: nat)
    ensures errs == DiffBits(a, b, 8)
  {
    var l, mask := 0, 0x80;
    errs := 0;
    while l < 8
      invariant l <= 8 && errs == DiffBits(a, b, l) && mask == if l < 8 then Mask(l) else 0
    {
      MaskBits(a, l);
      MaskBits(b, l);
      SameMasked(a, b, l);
      if And(a, mask) != And(b, mask) { errs := errs + 1; }
      l, mask := l + 1, mask / 2;
    }
  }

  lemma SameMasked(a: byte, b: byte, l: nat)
    requires l < 8
    ensures And(a, Mask(l)) == And(b, Mask(l)) <==> BitOf(a, l) == BitOf(b, l)
  {
    MaskIsPow2(l);
    AndPow2(a, 7 - l);
    AndPow2(b, 7 - l);
  }

  lemma {:induction false} AndPow2(a: nat, n: nat)
    ensures And(a, Pow2(n)) == if Digit(a, n) then Pow2(n) else 0
  {
    if n == 0 {
      AndZero(a / 2);
    } else if a > 0 {
      AndPow2(a / 2, n - 1);
      assert Pow2(n) / 2 == Pow2(n - 1);
    } else {
      DigitOfZero(n);
    }
  }

  // ---------------------------------------------------------------
  // One block
  // ---------------------------------------------------------------

  /** Byte o of bitmap block i after correction: the header fields are fixed in the first block,
      and bytes of the rebuilt bitmap go behind the header. */
  function CorrectByte(v: Volume, was: byte, bm: seq<byte>, i: nat, o: nat): byte
  {
    var k := 512 * i + o - BMHDRSZ;
    if k >= 0 then (if k < |bm| then bm[k] else was)
    else if o < 3 then HeaderByte(v.NBlocks(), o)
    else if o == 4 && v.clfactor < 256 then v.clfactor
    else was
  }

  function HeaderByte(n: nat, o: nat): byte
    requires o < 3
  {
    if o == 0 then n % 256 else if o == 1 then n / 256 % 256 else n / 65536 % 256
  }

  /** d is block i after correction, up to byte o. */
  ghost predicate CorrectUpTo(v: Volume, was: Block, d: Block, bm: seq<byte>, i: nat, o: nat)
  {
    && (forall p: nat :: p < o && p < 512 ==> d[p] == CorrectByte(v, was[p], bm, i, p))
    && (forall p: nat :: o <= p < 512 ==> d[p] == was[p])
  }

  /** Bits reported for bytes from "from" up to byte o of a block. */
  ghost function BlockDiffs(was: Block, d: Block, from: nat, o: nat): nat
    requires o <= 512
  {
    if o <= from then 0 else BlockDiffs(was, d, from, o - 1) + DiffBits(d[o - 1], was[o - 1], 8)
  }

  lemma {:induction false} BlockDiffsSame(was: Block, d: Block, d': Block, from: nat, o: nat)
    requires o <= 512 && forall p: nat :: from <= p < o ==> d[p] == d'[p]
    ensures BlockDiffs(was, d, from, o) == BlockDiffs(was, d', from, o)
  {
    if o > from { BlockDiffsSame(was, d, d', from, o - 1); }
  }

  lemma {:induction false} NoBlockDiffs(was: Block, d: Block, from: nat, o: nat)
    requires o <= 512
    ensures BlockDiffs(was, d, from, o) == 0 <==> forall p: nat :: from <= p < o ==> d[p] == was[p]
  {
    if o > from {
      NoBlockDiffs(was, d, from, o - 1);
      SameByte(d[o - 1], was[o - 1]);
    }
  }

  /** Where the bitmap starts in bitmap block i. */
  function FirstByte(i: nat): nat
  {
    if i == 0 then BMHDRSZ else 0
  }

  /** The header of the first block. */
  method FixHeader(v: Volume, data: Block, ghost bm: seq<byte>, i: nat) returns (d: Block)
    requires v.NBlocks() < 0x100_0000 && v.clfactor < 256
    ensures CorrectUpTo(v, data, d, bm, i, FirstByte(i))
  {
    d := data;
    if i == 0 {
      if Get24(d, 0) != v.NBlocks() { d := Set24(d, 0, v.NBlocks()); } else { HeaderDigits(d, v.NBlocks()); }
      if d[4] != v.clfactor { d := d[4 := v.clfactor]; }
    }
  }

  lemma HeaderDigits(d: Block, n: nat)
    requires Get24(d, 0) == n
    ensures forall o: nat :: o < 3 ==> d[o] == HeaderByte(n, o)
  {
    ThreeBytes(d[0], d[1], d[2]);
  }

  lemma ThreeBytes(a: nat, b: nat, c: nat)
    requires a < 256 && b < 256 && c < 256
    ensures var n := a + 256 * b + 65536 * c;
      n % 256 == a && n / 256 % 256 == b && n / 65536 % 256 == c
  {
    var n := a + 256 * b + 65536 * c;
    assert n / 256 == b + 256 * c;
    assert n / 65536 == c;
  }

  /** The bytes of one block: compare, report, correct. */
  method CompareBytes(v: Volume, bm: array<byte>, data: Block, i: nat, k0: nat, ghost was: Block) returns (d: Block, k: nat, errs: nat)
    requires CorrectUpTo(v, was, data, bm[..], i, FirstByte(i)) && k0 == 512 * i + FirstByte(i) - BMHDRSZ
    requires bm.Length >= k0
    ensures CorrectUpTo(v, was, d, bm[..], i, 512) && errs == BlockDiffs(was, d, FirstByte(i), 512)
    ensures k == if k0 + 512 - FirstByte(i) <= bm.Length then k0 + 512 - FirstByte(i) else bm.Length
  {
    var j := FirstByte(i);
    d, k, errs := data, k0, 0;
    while j < 512 && k < bm.Length
      invariant FirstByte(i) <= j <= 512 && k == 512 * i + j - BMHDRSZ <= bm.Length
      invariant CorrectUpTo(v, was, d, bm[..], i, j) && errs == BlockDiffs(was, d, FirstByte(i), j)
    {
      ghost var d0 := d;
      var err := 0;
      SameByte(bm[k], d[j]);
      if bm[k] != d[j] {
        err := CountBits(bm[k], d[j]);
        d := d[j := bm[k]];
      }
      BlockDiffsSame(was, d0, d, FirstByte(i), j);
      errs := errs + err;
      j, k := j + 1, k + 1;
    }
    RestUnchanged(v, was, d, bm[..], i, j);
  }

  lemma {:induction false} RestUnchanged(v: Volume, was: Block, d: Block, bm: seq<byte>, i: nat, j: nat)
    requires FirstByte(i) <= j <= 512 && CorrectUpTo(v, was, d, bm, i, j) && (j < 512 ==> 512 * i + j - BMHDRSZ >= |bm|)
    ensures CorrectUpTo(v, was, d, bm, i, 512) && BlockDiffs(was, d, FirstByte(i), j) == BlockDiffs(was, d, FirstByte(i), 512)
    decreases 512 - j
  {
    if j < 512 {
      SameByte(d[j], was[j]);
      RestUnchanged(v, was, d, bm, i, j + 1);
    }
  }

  // ---------------------------------------------------------------
  // All blocks
  // ---------------------------------------------------------------

  ghost predicate CompareKey(k: int)
  {
    true
  }

  /** The first n bitmap blocks are corrected, and nothing else has changed. */
  ghost predicate Corrected(v: Volume, was: Image, vol: Image, bm: seq<byte>, n: nat)
  {
    && |vol| == |was| && v.bmblock + n <= |was|
    && forall key {:trigger CompareKey(key)} :: Folded(key) ==>
    && (forall b: nat :: b < |vol| && !(v.bmblock <= b < v.bmblock + n) ==> vol[b] == was[b])
    && forall b: nat :: v.bmblock <= b < v.bmblock + n ==> CorrectUpTo(v, was[b], vol[b], bm, b - v.bmblock, 512)
  }

  /** Bits reported for the first n bitmap blocks. */
  ghost function TotalDiffs(v: Volume, was: Image, vol: Image, n: nat): nat
  {
    if n == 0 || v.bmblock + n > |was| || |vol| != |was| then 0
    else TotalDiffs(v, was, vol, n - 1) + BlockDiffs(was[v.bmblock + n - 1], vol[v.bmblock + n - 1], FirstByte(n - 1), 512)
  }

  lemma {:induction false} SameDiffs(v: Volume, was: Image, vol: Image, vol': Image, n: nat)
    requires |vol| == |vol'| == |was| && v.bmblock + n <= |was|
    requires forall b: nat :: v.bmblock <= b < v.bmblock + n ==> vol[b] == vol'[b]
    ensures TotalDiffs(v, was, vol, n) == TotalDiffs(v, was, vol', n)
  {
    if n > 0 {
      SameDiffs(v, was, vol, vol', n - 1);
    }
  }

  lemma CorrectedNext(v: Volume, was: Image, vol: Image, bm: seq<byte>, i: nat, d: Block)
    requires Corrected(v, was, vol, bm, i) && v.bmblock + i < |was| && CorrectUpTo(v, was[v.bmblock + i], d, bm, i, 512)
    ensures var vol' := vol[v.bmblock + i := d];
      && vol[v.bmblock + i] == was[v.bmblock + i] && Corrected(v, was, vol', bm, i + 1)
      && TotalDiffs(v, was, vol', i + 1) == TotalDiffs(v, was, vol, i) + BlockDiffs(was[v.bmblock + i], d, FirstByte(i), 512)
  {
    assert CompareKey(0);
    var vol' := vol[v.bmblock + i := d];
    SameDiffs(v, was, vol, vol', i);
    forall b: nat | v.bmblock <= b < v.bmblock + i + 1 ensures CorrectUpTo(v, was[b], vol'[b], bm, b - v.bmblock, 512) {
    }
  }

  /** One bitmap block. */
  method CompareBlock(v: Volume, bm: array<byte>, i: nat, k0: nat, ghost was: Image) returns (k: nat, errs: nat)
    requires v.Valid() && |v.cache.pins| < NBUFFERS && v.clfactor < 256
    requires Corrected(v, was, v.cache.logical, bm[..], i) && v.bmblock + i < v.NBlocks()
    requires k0 == 512 * i + FirstByte(i) - BMHDRSZ <= bm.Length
    modifies v.cache, v.cache.buffer
    ensures v.Valid() && v.cache.Kept(old(v.cache.pins)) && v.cache.pins == old(v.cache.pins)
    ensures Corrected(v, was, v.cache.logical, bm[..], i + 1)
    ensures TotalDiffs(v, was, v.cache.logical, i + 1) == TotalDiffs(v, was, old(v.cache.logical), i) + errs
    ensures k == if 512 * (i + 1) - BMHDRSZ <= bm.Length then 512 * (i + 1) - BMHDRSZ else bm.Length
  {
    var buf := v.Get(v.bmblock + i);
    var data := v.cache.Data(buf);
    assert data == was[v.bmblock + i] by { assert CompareKey(0); }
    var d := FixHeader(v, data, bm[..], i);
    d, k, errs := CompareBytes(v, bm, d, i, k0, data);
    CorrectedNext(v, was, v.cache.logical, bm[..], i, d);
    v.cache.Store(buf, v.bmblock + i, d);
    v.cache.ReleaseBlock(buf, v.bmblock + i);
  }

  /** The comparison loop. */
  method CompareBitmaps(v: Volume, bm: array<byte>, bmblks: nat) returns (errs: nat)
    requires v.Valid() && |v.cache.pins| < NBUFFERS && v.clfactor < 256
    requires v.bmblock + bmblks <= v.NBlocks() && 512 * bmblks < bm.Length + 512
    modifies v.cache, v.cache.buffer
    ensures v.Valid() && v.cache.Kept(old(v.cache.pins)) && v.cache.pins == old(v.cache.pins)
    ensures Corrected(v, old(v.cache.logical), v.cache.logical, bm[..], bmblks)
    ensures errs == TotalDiffs(v, old(v.cache.logical), v.cache.logical, bmblks)
  {
    ghost var was := v.cache.logical;
    var i, k := 0, 0;
    errs := 0;
    while i < bmblks
      invariant v.Valid() && v.cache.Kept(old(v.cache.pins)) && v.cache.pins == old(v.cache.pins)
      invariant i <= bmblks && (i < bmblks ==> k == 512 * i + FirstByte(i) - BMHDRSZ <= bm.Length)
      invariant Corrected(v, was, v.cache.logical, bm[..], i) && errs == TotalDiffs(v, was, v.cache.logical, i)
    {
      var err;
      k, err := CompareBlock(v, bm, i, k, was);
      errs := errs + err;
      i := i + 1;
    }
  }

  // ---------------------------------------------------------------
  // What the correction means
  // ---------------------------------------------------------------

  /** Afterwards the bits on disk are those of the rebuilt bitmap. */
  lemma CorrectedBit(v: Volume, was: Image, vol: Image, bm: seq<byte>, n: nat, c: nat)
    requires Corrected(v, was, vol, bm, n) && c < 8 * |bm| && BitBlock(c) < n
    ensures Bit(vol, v.bmblock, c) <==> c in Marked(bm)
  {
    assert CompareKey(0);
    CursorClosedForm(c);
    assert 512 * BitBlock(c) + BitOffset(c) - BMHDRSZ == c / 8;
    assert CorrectUpTo(v, was[v.bmblock + BitBlock(c)], vol[v.bmblock + BitBlock(c)], bm, BitBlock(c), 512);
  }

  lemma CorrectedUsed(v: Volume, was: Image, vol: Image, bm: seq<byte>, n: nat)
    requires Corrected(v, was, vol, bm, n) && v.NClusters() <= 8 * |bm| && forall c: nat :: c < v.NClusters() ==> BitBlock(c) < n
    ensures forall c: nat :: c in Used(v, vol) <==> c < v.NClusters() && c in Marked(bm)
  {
    forall c: nat | c < v.NClusters() ensures Bit(vol, v.bmblock, c) <==> c in Marked(bm) {
      CorrectedBit(v, was, vol, bm, n, c);
    }
  }

  lemma SameBlock(v: Volume, was: Block, d: Block, e: Block, bm: seq<byte>, i: nat)
    requires CorrectUpTo(v, was, d, bm, i, 512) && CorrectUpTo(v, d, e, bm, i, 512)
    ensures e == d
  {
    assert forall p: nat :: p < 512 ==> e[p] == d[p];
  }

  /** A second pass over the corrected volume reports no difference and changes nothing. */
  lemma SecondPass(v: Volume, was: Image, vol: Image, vol': Image, bm: seq<byte>, n: nat)
    requires Corrected(v, was, vol, bm, n) && Corrected(v, vol, vol', bm, n)
    ensures vol' == vol && TotalDiffs(v, vol, vol', n) == 0
  {
    assert CompareKey(0);
    forall b: nat | b < |vol| ensures vol'[b] == vol[b] {
      if v.bmblock <= b < v.bmblock + n { SameBlock(v, was[b], vol[b], vol'[b], bm, b - v.bmblock); }
    }
    NoDiffs(v, vol, vol', n);
  }

  /** No difference is reported exactly when the bytes of the bitmap proper are as before. */
  lemma {:induction false} NoDiffs(v: Volume, was: Image, vol: Image, n: nat)
    requires |vol| == |was| && v.bmblock + n <= |was|
    ensures TotalDiffs(v, was, vol, n) == 0 <==>
      forall b: nat, p: nat :: v.bmblock <= b < v.bmblock + n && FirstByte(b - v.bmblock) <= p < 512 ==> vol[b][p] == was[b][p]
  {
    if n > 0 {
      NoDiffs(v, was, vol, n - 1);
      NoBlockDiffs(was[v.bmblock + (n - 1)], vol[v.bmblock + (n - 1)], FirstByte(n - 1), 512);
    }
  }

  // ---------------------------------------------------------------
  // check_alloc_map
  // ---------------------------------------------------------------

  lemma {:induction false} NothingMarked(bm: seq<byte>)
    requires forall k: nat :: k < |bm| ==> bm[k] == 0
    ensures Marked(bm) == {}
  {
    forall c: nat | c < 8 * |bm| ensures !BitOf(bm[c / 8], c % 8) {
      DigitOfZero(7 - c % 8);
    }
  }

  /** Rebuild, compare and correct.  The bitmap afterwards marks exactly the clusters to which the
      inodes lay claim, and the number of messages is that of repeated claims and of bits that
      differed. */
  method CheckAllocMap(v: Volume, inodes: nat, bmsize: nat, bmblks: nat, ghost files: map<nat, File>)
    returns (errs: nat, ghost bm: seq<byte>)
    requires v.Valid() && |v.cache.pins| + 1 < NBUFFERS && v.clfactor < 256 && IndexIs(v, v.cache.logical, files, inodes)
    requires bmsize == (v.NClusters() + 7) / 8 + BMHDRSZ && bmblks == (bmsize + 511) / 512 && v.bmblock + bmblks <= v.NBlocks()
    modifies v.cache, v.cache.buffer
    ensures v.Valid() && v.cache.Kept(old(v.cache.pins)) && v.cache.pins == old(v.cache.pins)
    ensures |bm| == bmsize && Corrected(v, old(v.cache.logical), v.cache.logical, bm, bmblks)
    ensures Marked(bm) == Elems(IndexClaims(v, files, inodes))
    ensures errs == Repeats({}, IndexClaims(v, files, inodes)) + TotalDiffs(v, old(v.cache.logical), v.cache.logical, bmblks)
    ensures forall c: nat :: c in Used(v, v.cache.logical) <==> c < v.NClusters() && c in Elems(IndexClaims(v, files, inodes))
  {
    ghost var vol := v.cache.logical;
    var b := new byte[bmsize](_ => 0);
    NothingMarked(b[..]);
    assert v.cache.Kept(old(v.cache.pins));
    errs := MarkIndex(v, b, inodes, files);
    assert Marked(b[..]) == Elems(IndexClaims(v, files, inodes)) && errs == Repeats({}, IndexClaims(v, files, inodes)) by {
      assert MarkKey(0);
    }
    assert v.cache.Kept(old(v.cache.pins));
    var diffs := CompareBitmaps(v, b, bmblks);
    errs := errs + diffs;
    bm := b[..];
    forall c: nat | c < v.NClusters() ensures BitBlock(c) < bmblks {
      CursorClosedForm(c);
    }
    CorrectedUsed(v, vol, v.cache.logical, bm, bmblks);
  }
}
