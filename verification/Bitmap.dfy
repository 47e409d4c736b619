/** The cluster and index-entry bitmaps of bitmap.c. */
module Bitmap {
  import opened Bytes
  import opened BufferCache
  import opened Volumes

  // ---------------------------------------------------------------
  // What a scan finds
  // ---------------------------------------------------------------

  /** The lowest clear bit at or after i, or n. */
  ghost function FirstClear(vol: Image, bm: nat, i: nat, n: nat): nat
    requires i <= n
    decreases n - i
  {
    if i == n then n else if !Bit(vol, bm, i) then i else FirstClear(vol, bm, i + 1, n)
  }

  lemma {:induction false} FirstClearIsLeast(vol: Image, bm: nat, i: nat, n: nat)
    requires i <= n
    ensures var k := FirstClear(vol, bm, i, n);
      i <= k <= n && (k < n ==> !Bit(vol, bm, k)) && forall j: nat :: i <= j < k ==> Bit(vol, bm, j)
    decreases n - i
  {
    if i < n && Bit(vol, bm, i) { FirstClearIsLeast(vol, bm, i + 1, n); }
  }

  /** Bits s .. s+num-1 are clear. */
  ghost predicate ClearRun(vol: Image, bm: nat, s: nat, num: nat)
  {
    forall k: nat :: s <= k < s + num ==> !Bit(vol, bm, k)
  }

  /** Bits s .. s+num-1 set, all else unchanged. */
  ghost function WithRun(vol: Image, bm: nat, s: nat, num: nat): (r: Image)
    ensures |r| == |vol|
  {
    if num == 0 then vol else WithBit(WithRun(vol, bm, s, num - 1), bm, s + num - 1, true)
  }

  lemma {:induction false} WithRunBit(vol: Image, bm: nat, s: nat, num: nat, j: nat)
    requires bm + BitBlock(s + num) < |vol|
    ensures Bit(WithRun(vol, bm, s, num), bm, j) == (s <= j < s + num || Bit(vol, bm, j))
  {
    if num > 0 {
      AddressMonotone(s + num - 1, s + num);
      WithRunBit(vol, bm, s, num - 1, j);
      WithBitBit(WithRun(vol, bm, s, num - 1), bm, s + num - 1, true, j);
    }
  }

  // ---------------------------------------------------------------
  // The scan cursor shared by the allocators
  // ---------------------------------------------------------------

  /** The local variables of a scan: held buffer, its block, byte offset, mask, current byte. */
  datatype Cursor = Cursor(buf: nat, bmblk: nat, offs: nat, mask: nat, bmp: byte)
  {
    predicate Clear() { And(bmp, mask) == 0 }
  }

  /** The cursor has taken i steps from the start of the section at bm and holds its block. */
  ghost predicate CursorPlaced(c: Cache, cur: Cursor, bm: nat, i: nat)
    reads c, c.buffer
  {
    && cur.bmblk == bm + BitBlock(i) < |c.logical|
    && cur.offs == BitOffset(i)
    && cur.mask == Mask(BitPos(i))
    && c.Owns(cur.buf, cur.bmblk)
  }

  ghost predicate CursorKey(k: int)
  {
    true
  }

  /** ... and bmp is the current byte. */
  ghost predicate CursorAt(c: Cache, cur: Cursor, bm: nat, i: nat)
    reads c, c.buffer
  {
    forall k {:trigger CursorKey(k)} :: Folded(k) ==> CursorPlaced(c, cur, bm, i) && cur.bmp == c.logical[cur.bmblk][cur.offs]
  }

  lemma CursorIsAt(c: Cache, cur: Cursor, bm: nat, i: nat)
    requires CursorPlaced(c, cur, bm, i) && cur.bmp == c.logical[cur.bmblk][cur.offs]
    ensures CursorAt(c, cur, bm, i)
  {
  }

  lemma {:induction false} CursorReads(c: Cache, cur: Cursor, bm: nat, i: nat)
    requires CursorAt(c, cur, bm, i)
    ensures cur.Clear() == !Bit(c.logical, bm, i)
    ensures c.Owns(cur.buf, cur.bmblk) && cur.bmblk == bm + BitBlock(i)
  {
    assert CursorKey(0);
    MaskBits(cur.bmp, BitPos(i));
  }

  lemma MaskHalves(k: nat)
    requires k < 8
    ensures if k < 7 then Mask(k) / 2 == Mask(k + 1) else Mask(k) / 2 == 0
  {
  }

  method ScanStart(v: Volume, bm: nat) returns (cur: Cursor)
    requires v.Valid() && |v.cache.pins| < NBUFFERS && bm < v.NBlocks()
    modifies v.cache, v.cache.buffer
    ensures v.Valid() && v.cache.Kept(old(v.cache.pins))
    ensures v.cache.logical == old(v.cache.logical)
    ensures CursorAt(v.cache, cur, bm, 0)
    ensures v.cache.pins == old(v.cache.pins) + multiset{cur.bmblk}
  {
    var buf := v.Get(bm);
    var data := v.cache.Data(buf);
    cur := Cursor(buf, bm, BMHDRSZ, 0x80, data[BMHDRSZ]);
    CursorIsAt(v.cache, cur, bm, 0);
  }

  /** ++offs, with the next block when the current one is exhausted: held stands for the
      accesses outstanding besides the cursor's own. */
  method NextByte(v: Volume, cur: Cursor, ghost held: multiset<nat>) returns (next: Cursor)
    requires v.Valid() && v.cache.Owns(cur.buf, cur.bmblk) && cur.offs < 512
    requires cur.offs == 511 ==> cur.bmblk + 1 < v.NBlocks()
    requires v.cache.pins == held + multiset{cur.bmblk} && |held| < NBUFFERS
    modifies v.cache, v.cache.buffer
    ensures v.Valid() && v.cache.Kept(held)
    ensures v.cache.logical == old(v.cache.logical)
    ensures next.offs < 512 && next.mask == 0x80
    ensures if cur.offs < 511 then next.bmblk == cur.bmblk && next.offs == cur.offs + 1
            else next.bmblk == cur.bmblk + 1 && next.offs == 0
    ensures next.bmblk < |v.cache.logical| && next.bmp == v.cache.logical[next.bmblk][next.offs]
    ensures v.cache.pins == held + multiset{next.bmblk} && v.cache.Owns(next.buf, next.bmblk)
  {
    var offs, buf, bmblk := cur.offs + 1, cur.buf, cur.bmblk;
    if offs == 512 {
      v.cache.ReleaseBlock(buf, bmblk);
      bmblk := bmblk + 1;
      buf := v.Get(bmblk);
      offs := 0;
    }
    var data := v.cache.Data(buf);
    next := Cursor(buf, bmblk, offs, 0x80, data[offs]);
  }

  /** mask >>= 1, moving to the next byte when it runs out. */
  method ScanStep(v: Volume, bm: nat, cur: Cursor, ghost i: nat, ghost held: multiset<nat>) returns (next: Cursor)
    requires v.Valid() && CursorAt(v.cache, cur, bm, i)
    requires bm + BitBlock(i + 1) < v.NBlocks()
    requires v.cache.pins == held + multiset{cur.bmblk} && |held| < NBUFFERS
    modifies v.cache, v.cache.buffer
    ensures v.Valid() && v.cache.Kept(held)
    ensures v.cache.logical == old(v.cache.logical)
    ensures CursorAt(v.cache, next, bm, i + 1)
    ensures v.cache.pins == held + multiset{next.bmblk}
  {
    assert CursorKey(0);
    MaskHalves(BitPos(i));
    next := cur.(mask := cur.mask / 2);
    if next.mask == 0 {
      next := NextByte(v, cur, held);
    }
  }

  /** bmp |= mask, written back to the buffer, which is then released. */
  method MarkAndRelease(v: Volume, bm: nat, cur: Cursor, ghost i: nat, ghost held: multiset<nat>)
    requires v.Valid() && CursorAt(v.cache, cur, bm, i)
    requires v.cache.pins == held + multiset{cur.bmblk}
    modifies v.cache, v.cache.buffer
    ensures v.Valid() && v.cache.Kept(held)
    ensures v.cache.logical == WithBit(old(v.cache.logical), bm, i, true)
    ensures v.cache.pins == held
  {
    assert CursorKey(0);
    MaskBits(cur.bmp, BitPos(i));
    var data := v.cache.Data(cur.buf);
    v.cache.Store(cur.buf, cur.bmblk, data[cur.offs := Or(cur.bmp, cur.mask)]);
    v.cache.ReleaseBlock(cur.buf, cur.bmblk);
  }

  /** The loop of alloc_cluster and alloc_inode: step to the lowest clear bit below n, if any. */
  method ScanForClear(v: Volume, bm: nat, start: Cursor, n: nat, ghost held: multiset<nat>) returns (i: nat, cur: Cursor)
    requires v.Valid() && CursorAt(v.cache, start, bm, 0) && bm + BitBlock(n) < v.NBlocks()
    requires v.cache.pins == held + multiset{start.bmblk} && |held| < NBUFFERS
    modifies v.cache, v.cache.buffer
    ensures v.Valid() && v.cache.Kept(held)
    ensures v.cache.logical == old(v.cache.logical)
    ensures v.cache.pins == held + multiset{cur.bmblk}
    ensures i == FirstClear(v.cache.logical, bm, 0, n) && i <= n && CursorAt(v.cache, cur, bm, i)
  {
    ghost var vol := v.cache.logical;
    i, cur := 0, start;
    while i < n
      invariant v.Valid() && v.cache.Kept(held)
      invariant v.cache.logical == vol && v.cache.pins == held + multiset{cur.bmblk}
      invariant i <= n && FirstClear(vol, bm, 0, n) == FirstClear(vol, bm, i, n)
      invariant CursorAt(v.cache, cur, bm, i)
    {
      CursorReads(v.cache, cur, bm, i);
      if cur.Clear() { return; }
      AddressMonotone(i + 1, n);
      cur := ScanStep(v, bm, cur, i, held);
      i := i + 1;
    }
  }

  // ---------------------------------------------------------------
  // alloc_cluster
  // ---------------------------------------------------------------

  /** Returns the block of the lowest clear bit below nblocks and sets that bit.  When there
      is none it returns 0 and leaves the last bitmap buffer pinned. */
  method AllocCluster(v: Volume) returns (lbn: nat)
    requires v.Valid() && |v.cache.pins| < NBUFFERS
    modifies v.cache, v.cache.buffer
    ensures v.Valid() && v.cache.Kept(old(v.cache.pins))
    ensures var i := FirstClear(old(v.cache.logical), v.bmblock, 0, v.NBlocks());
      if i < v.NBlocks() then
        lbn == Shl(i, v.clfactor)
        && v.cache.logical == WithBit(old(v.cache.logical), v.bmblock, i, true)
        && v.cache.pins == old(v.cache.pins)
      else
        lbn == 0
        && v.cache.logical == old(v.cache.logical)
        && v.cache.pins == old(v.cache.pins) + multiset{v.bmblock + BitBlock(v.NBlocks())}
  {
    ghost var held := v.cache.pins;
    var cur := ScanStart(v, v.bmblock);
    var i;
    i, cur := ScanForClear(v, v.bmblock, cur, v.NBlocks(), held);
    if i < v.NBlocks() {
      MarkAndRelease(v, v.bmblock, cur, i, held);
      return Shl(i, v.clfactor);
    }
    CursorReads(v.cache, cur, v.bmblock, i);
    return 0;
  }

  // ---------------------------------------------------------------
  // alloc_clusters
  // ---------------------------------------------------------------

  /** The lowest start, at or after s, of num clear bits in a row below n; n if there is none. */
  ghost function FirstRun(vol: Image, bm: nat, num: nat, s: nat, n: nat): nat
    requires 0 < num && s <= n
    decreases n - s
  {
    if s + num > n then n else if ClearRun(vol, bm, s, num) then s else FirstRun(vol, bm, num, s + 1, n)
  }

  lemma {:induction false} FirstRunIsLeast(vol: Image, bm: nat, num: nat, s: nat, n: nat)
    requires 0 < num && s <= n
    ensures var k := FirstRun(vol, bm, num, s, n);
      && s <= k <= n
      && (k < n ==> k + num <= n && ClearRun(vol, bm, k, num))
      && forall j: nat :: s <= j < k && j + num <= n ==> !ClearRun(vol, bm, j, num)
    decreases n - s
  {
    if s + num <= n && !ClearRun(vol, bm, s, num) { FirstRunIsLeast(vol, bm, num, s + 1, n); }
  }

  /** A set bit ends the current run of j < num clear bits: the search resumes after it. */
  lemma {:induction false} SkipPastSetBit(vol: Image, bm: nat, num: nat, s: nat, i: nat, n: nat)
    requires s <= i < n && i < s + num && Bit(vol, bm, i)
    ensures FirstRun(vol, bm, num, s, n) == FirstRun(vol, bm, num, i + 1, n)
    decreases i - s
  {
    if s + num <= n {
      assert !ClearRun(vol, bm, s, num);
      if s < i { SkipPastSetBit(vol, bm, num, s + 1, i, n); }
    } else {
      assert i + 1 + num > n;
    }
  }

  /** The scan variables after i bits: a run of j clear bits ends here, and searching from
      its start gives the same answer as searching from the beginning. */
  ghost predicate RunState(vol: Image, bm: nat, num: nat, i: nat, j: nat, n: nat)
    requires i <= n
  {
    0 < num ==>
      && j < num && j <= i
      && ClearRun(vol, bm, i - j, j)
      && FirstRun(vol, bm, num, 0, n) == FirstRun(vol, bm, num, i - j, n)
  }

  lemma {:induction false} RunStateStep(vol: Image, bm: nat, num: nat, i: nat, j: nat, n: nat)
    requires i < n && RunState(vol, bm, num, i, j, n)
    ensures Bit(vol, bm, i) ==> RunState(vol, bm, num, i + 1, 0, n)
    ensures !Bit(vol, bm, i) && j + 1 != num ==> RunState(vol, bm, num, i + 1, j + 1, n)
    ensures !Bit(vol, bm, i) && j + 1 == num ==> FirstRun(vol, bm, num, 0, n) == i - j
  {
    if 0 < num && Bit(vol, bm, i) { SkipPastSetBit(vol, bm, num, i - j, i, n); }
  }

  /** A cursor whose current byte is not written back yet; target is the volume once it is. */
  ghost predicate PendingAt(c: Cache, cur: Cursor, bm: nat, i: nat, target: Image)
    reads c, c.buffer
  {
    forall k {:trigger CursorKey(k)} :: Folded(k) ==>
      && CursorPlaced(c, cur, bm, i)
      && target == WithByte(c.logical, cur.bmblk, cur.offs, cur.bmp)
      && (cur.mask == 0x80 ==> target == c.logical)
  }

  lemma NothingPending(c: Cache, cur: Cursor, bm: nat, i: nat)
    requires CursorAt(c, cur, bm, i)
    ensures PendingAt(c, cur, bm, i, c.logical)
  {
    assert CursorKey(0);
    WithByteFacts(c.logical, cur.bmblk, cur.offs, 0, 0);
  }

  /** bmp |= mask and one step; the byte is stored only when it is complete. */
  method MarkStep(v: Volume, bm: nat, cur: Cursor, ghost i: nat, ghost target: Image, ghost held: multiset<nat>) returns (next: Cursor)
    requires v.Valid() && PendingAt(v.cache, cur, bm, i, target)
    requires bm + BitBlock(i + 1) < v.NBlocks()
    requires v.cache.pins == held + multiset{cur.bmblk} && |held| < NBUFFERS
    modifies v.cache, v.cache.buffer
    ensures v.Valid() && v.cache.Kept(held)
    ensures PendingAt(v.cache, next, bm, i + 1, WithBit(target, bm, i, true))
    ensures v.cache.pins == held + multiset{next.bmblk}
  {
    assert CursorKey(0);
    MaskHalves(BitPos(i));
    PendingOr(v.cache.logical, target, bm, i, cur);
    next := cur.(bmp := Or(cur.bmp, cur.mask), mask := cur.mask / 2);
    if next.mask == 0 {
      var data := v.cache.Data(cur.buf);
      v.cache.Store(cur.buf, cur.bmblk, data[cur.offs := next.bmp]);
      next := NextByte(v, next, held);
      WithByteFacts(v.cache.logical, next.bmblk, next.offs, 0, 0);
    }
  }

  lemma {:induction false} PendingOr(vol: Image, target: Image, bm: nat, i: nat, cur: Cursor)
    requires cur.bmblk == bm + BitBlock(i) < |vol| && cur.offs == BitOffset(i) && cur.mask == Mask(BitPos(i))
    requires target == WithByte(vol, cur.bmblk, cur.offs, cur.bmp)
    ensures Or(cur.bmp, cur.mask) < 256
    ensures WithByte(vol, cur.bmblk, cur.offs, Or(cur.bmp, cur.mask)) == WithBit(target, bm, i, true)
  {
    MaskBits(cur.bmp, BitPos(i));
    WithByteFacts(vol, cur.bmblk, cur.offs, cur.bmp, Or(cur.bmp, cur.mask));
  }

  /** The first loop: look for num clear bits in a row. */
  method FindRun(v: Volume, num: nat) returns (j: nat, cstart: nat)
    requires v.Valid() && |v.cache.pins| < NBUFFERS
    modifies v.cache, v.cache.buffer
    ensures v.Valid() && v.cache.Kept(old(v.cache.pins))
    ensures v.cache.logical == old(v.cache.logical) && v.cache.pins == old(v.cache.pins)
    ensures cstart <= v.NBlocks()
    ensures num > 0 ==> var s := FirstRun(v.cache.logical, v.bmblock, num, 0, v.NBlocks());
      if s < v.NBlocks() then j == num && cstart == s else j < num
  {
    ghost var vol, pins := v.cache.logical, v.cache.pins;
    var n := v.NBlocks();
    cstart, j := 0, 0;
    var cur := ScanStart(v, v.bmblock);
    var i := 0;
    while i < n
      invariant v.Valid() && v.cache.Kept(pins)
      invariant v.cache.logical == vol && v.cache.pins == pins + multiset{cur.bmblk}
      invariant i <= n && cstart <= n && (j > 0 ==> cstart + j == i)
      invariant RunState(vol, v.bmblock, num, i, j, n)
      invariant CursorAt(v.cache, cur, v.bmblock, i)
    {
      CursorReads(v.cache, cur, v.bmblock, i);
      RunStateStep(vol, v.bmblock, num, i, j, n);
      if cur.Clear() {
        if j == 0 { cstart := i; }
        j := j + 1;
        if j == num { break; }
      } else {
        j := 0;
      }
      assert RunState(vol, v.bmblock, num, i + 1, j, n);
      AddressMonotone(i + 1, n);
      cur := ScanStep(v, v.bmblock, cur, i, pins);
      i := i + 1;
    }
    CursorReads(v.cache, cur, v.bmblock, i);
    v.cache.ReleaseBlock(cur.buf, cur.bmblk);
  }

  /** The closed-form address of cluster cstart, turned back into a cursor. */
  method CursorTo(v: Volume, cstart: nat) returns (cur: Cursor)
    requires v.Valid() && |v.cache.pins| < NBUFFERS && cstart <= v.NBlocks()
    modifies v.cache, v.cache.buffer
    ensures v.Valid() && v.cache.Kept(old(v.cache.pins))
    ensures v.cache.logical == old(v.cache.logical)
    ensures CursorAt(v.cache, cur, v.bmblock, cstart)
    ensures v.cache.pins == old(v.cache.pins) + multiset{cur.bmblk}
  {
    MaskedAddress(cstart);
    AddressMonotone(cstart, v.NBlocks());
    var mask := Mask(cstart % 8);
    var offs := (cstart / 8 + BMHDRSZ) % 512;
    var bmblk := v.bmblock + ((cstart / 8 + BMHDRSZ) / 512) % 4096;
    var buf := v.Get(bmblk);
    var data := v.cache.Data(buf);
    cur := Cursor(buf, bmblk, offs, mask, data[offs]);
    CursorIsAt(v.cache, cur, v.bmblock, cstart);
  }

  /** The byte left over at the end is stored unless the mask has just been reset. */
  method MarkEnd(v: Volume, bm: nat, cur: Cursor, ghost i: nat, ghost target: Image, ghost held: multiset<nat>)
    requires v.Valid() && PendingAt(v.cache, cur, bm, i, target)
    requires v.cache.pins == held + multiset{cur.bmblk}
    modifies v.cache, v.cache.buffer
    ensures v.Valid() && v.cache.Kept(held)
    ensures v.cache.logical == target && v.cache.pins == held
  {
    assert CursorKey(0);
    if cur.mask != 0x80 {
      var data := v.cache.Data(cur.buf);
      v.cache.Store(cur.buf, cur.bmblk, data[cur.offs := cur.bmp]);
    }
    v.cache.ReleaseBlock(cur.buf, cur.bmblk);
  }

  /** The second loop: mark num bits from cstart on. */
  method MarkRun(v: Volume, num: nat, cstart: nat)
    requires v.Valid() && |v.cache.pins| < NBUFFERS && cstart + num <= v.NBlocks()
    modifies v.cache, v.cache.buffer
    ensures v.Valid() && v.cache.Kept(old(v.cache.pins))
    ensures v.cache.logical == WithRun(old(v.cache.logical), v.bmblock, cstart, num)
    ensures v.cache.pins == old(v.cache.pins)
  {
    ghost var vol, pins := v.cache.logical, v.cache.pins;
    var cur := CursorTo(v, cstart);
    NothingPending(v.cache, cur, v.bmblock, cstart);
    for i := 0 to num
      invariant v.Valid() && v.cache.Kept(pins)
      invariant PendingAt(v.cache, cur, v.bmblock, cstart + i, WithRun(vol, v.bmblock, cstart, i))
      invariant v.cache.pins == pins + multiset{cur.bmblk}
    {
      AddressMonotone(cstart + i + 1, v.NBlocks());
      cur := MarkStep(v, v.bmblock, cur, cstart + i, WithRun(vol, v.bmblock, cstart, i), pins);
    }
    MarkEnd(v, v.bmblock, cur, cstart + num, WithRun(vol, v.bmblock, cstart, num), pins);
  }

  /** First fit: the lowest run of num clear bits below nblocks is set and its first block
      returned; without such a run the result is 0 and nothing changes. */
  method AllocClusters(v: Volume, num: nat) returns (lbn: nat)
    requires v.Valid() && |v.cache.pins| < NBUFFERS
    modifies v.cache, v.cache.buffer
    ensures v.Valid() && v.cache.Kept(old(v.cache.pins))
    ensures v.cache.pins == old(v.cache.pins)
    ensures num == 0 ==> v.cache.logical == old(v.cache.logical)
    ensures num > 0 ==> var s := FirstRun(old(v.cache.logical), v.bmblock, num, 0, v.NBlocks());
      if s < v.NBlocks() then
        lbn == Shl(s, v.clfactor) && v.cache.logical == WithRun(old(v.cache.logical), v.bmblock, s, num)
      else
        lbn == 0 && v.cache.logical == old(v.cache.logical)
  {
    var j, cstart := FindRun(v, num);
    if j < num { return 0; }
    if num > 0 { FirstRunIsLeast(v.cache.logical, v.bmblock, num, 0, v.NBlocks()); }
    MarkRun(v, num, cstart);
    return Shl(cstart, v.clfactor);
  }

  // ---------------------------------------------------------------
  // free_cluster
  // ---------------------------------------------------------------

  /** Clears one bit at its closed-form address. */
  method FreeCluster(v: Volume, clno: nat)
    requires v.Valid() && |v.cache.pins| < NBUFFERS && clno < v.NBlocks()
    modifies v.cache, v.cache.buffer
    ensures v.Valid() && v.cache.Kept(old(v.cache.pins))
    ensures v.cache.logical == WithBit(old(v.cache.logical), v.bmblock, clno, false)
    ensures v.cache.pins == old(v.cache.pins)
  {
    var cur := CursorTo(v, clno);
    assert CursorKey(0);
    MaskBits(cur.bmp, BitPos(clno));
    var data := v.cache.Data(cur.buf);
    v.cache.Store(cur.buf, cur.bmblk, data[cur.offs := AndNot(data[cur.offs], cur.mask)]);
    v.cache.ReleaseBlock(cur.buf, cur.bmblk);
  }

  // ---------------------------------------------------------------
  // alloc_inode and free_inode
  // ---------------------------------------------------------------

  /** First block of the second section, from the header of the first. */
  function IndexBitmap(vol: Image, bm: nat): nat
    requires bm < |vol|
  {
    bm + Get24(vol[bm], 8)
  }

  /** Number of index file entries, as the 16-bit field of the second section's header. */
  function NFiles(vol: Image, bm: nat): nat
    requires bm < |vol| && IndexBitmap(vol, bm) < |vol|
  {
    Get16(vol[IndexBitmap(vol, bm)], 0)
  }

  /** The second section lies inside the volume. */
  ghost predicate IndexBitmapOk(vol: Image, bm: nat)
  {
    && bm < |vol| && IndexBitmap(vol, bm) < |vol|
    && IndexBitmap(vol, bm) + BitBlock(NFiles(vol, bm)) < |vol|
  }

  /** The 1-based number of the lowest clear bit of the index file bitmap, which is set; 0,
      with the last buffer left pinned, when all are set. */
  method AllocInode(v: Volume) returns (ino: nat)
    requires v.Valid() && |v.cache.pins| < NBUFFERS && IndexBitmapOk(v.cache.logical, v.bmblock)
    modifies v.cache, v.cache.buffer
    ensures v.Valid() && v.cache.Kept(old(v.cache.pins))
    ensures var vol := old(v.cache.logical);
      var bm, n := IndexBitmap(vol, v.bmblock), NFiles(vol, v.bmblock);
      var i := FirstClear(vol, bm, 0, n);
      if i < n then
        ino == i + 1 && v.cache.logical == WithBit(vol, bm, i, true) && v.cache.pins == old(v.cache.pins)
      else
        ino == 0 && v.cache.logical == vol && v.cache.pins == old(v.cache.pins) + multiset{bm + BitBlock(n)}
  {
    ghost var held := v.cache.pins;
    var bm, nfiles, cur := OpenIndexBitmap(v);
    var i;
    i, cur := ScanForClear(v, bm, cur, nfiles, held);
    if i < nfiles {
      MarkAndRelease(v, bm, cur, i, held);
      return i + 1;
    }
    CursorReads(v.cache, cur, bm, i);
    return 0;
  }

  /** Follow the header of the first section to the second one and read its size. */
  method OpenIndexBitmap(v: Volume) returns (bm: nat, nfiles: nat, cur: Cursor)
    requires v.Valid() && |v.cache.pins| < NBUFFERS && IndexBitmapOk(v.cache.logical, v.bmblock)
    modifies v.cache, v.cache.buffer
    ensures v.Valid() && v.cache.Kept(old(v.cache.pins))
    ensures v.cache.logical == old(v.cache.logical)
    ensures bm == IndexBitmap(v.cache.logical, v.bmblock) && nfiles == NFiles(v.cache.logical, v.bmblock)
    ensures CursorAt(v.cache, cur, bm, 0) && cur.bmblk == bm
    ensures v.cache.pins == old(v.cache.pins) + multiset{bm}
  {
    var buf := v.Get(v.bmblock);
    var data := v.cache.Data(buf);
    bm := v.bmblock + Get24(data, 8);
    v.cache.ReleaseBlock(buf, v.bmblock);
    buf := v.Get(bm);
    data := v.cache.Data(buf);
    nfiles := Get16(data, 0);
    cur := Cursor(buf, bm, BMHDRSZ, 0x80, data[BMHDRSZ]);
    CursorIsAt(v.cache, cur, bm, 0);
  }

  /** Clears the bit of index entry ino; refuses an entry beyond the index file. */
  method FreeInode(v: Volume, ino: nat) returns (ok: bool)
    requires v.Valid() && |v.cache.pins| < NBUFFERS && IndexBitmapOk(v.cache.logical, v.bmblock)
    requires ino < 0x1_0000
    modifies v.cache, v.cache.buffer
    ensures v.Valid() && v.cache.Kept(old(v.cache.pins))
    ensures v.cache.pins == old(v.cache.pins)
    ensures ok <==> 1 <= ino <= NFiles(old(v.cache.logical), v.bmblock)
    ensures v.cache.logical ==
      if ok then WithBit(old(v.cache.logical), IndexBitmap(old(v.cache.logical), v.bmblock), ino - 1, false) else old(v.cache.logical)
  {
    var i := if ino == 0 then 0xFFFF else ino - 1;
    var bm, nfiles, cur := OpenIndexBitmap(v);
    CursorReads(v.cache, cur, bm, 0);
    v.cache.ReleaseBlock(cur.buf, cur.bmblk);
    if i >= nfiles { return false; }
    ClearInodeBit(v, bm, i, nfiles);
    return true;
  }

  method ClearInodeBit(v: Volume, bm: nat, i: nat, ghost nfiles: nat)
    requires v.Valid() && |v.cache.pins| < NBUFFERS
    requires i < nfiles < 0x1_0000 && bm + BitBlock(nfiles) < v.NBlocks()
    modifies v.cache, v.cache.buffer
    ensures v.Valid() && v.cache.Kept(old(v.cache.pins))
    ensures v.cache.pins == old(v.cache.pins)
    ensures v.cache.logical == WithBit(old(v.cache.logical), bm, i, false)
  {
    MaskedInodeAddress(i);
    AddressMonotone(i, nfiles);
    var mask := Mask(i % 8);
    var offs := (i / 8 + BMHDRSZ) % 512;
    var bmblk := bm + ((i / 8 + BMHDRSZ) / 512) % 32;
    var buf := v.Get(bmblk);
    var data := v.cache.Data(buf);
    MaskBits(data[offs], i % 8);
    v.cache.Store(buf, bmblk, data[offs := AndNot(data[offs], mask)]);
    v.cache.ReleaseBlock(buf, bmblk);
  }

  /** The 5-bit mask never truncates for a 16-bit entry number. */
  lemma {:induction false} MaskedInodeAddress(i: nat)
    requires i < 0x1_0000
    ensures BitPos(i) == i % 8
    ensures BitOffset(i) == (i / 8 + BMHDRSZ) % 512
    ensures BitBlock(i) == ((i / 8 + BMHDRSZ) / 512) % 32
  {
    CursorClosedForm(i);
    SmallQuotient(i / 8 + BMHDRSZ, 32);
  }
}
