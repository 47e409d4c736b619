/** file_write of fileio.c. */
module StreamWrite {
  import opened Bytes
  import opened BufferCache
  import opened Volumes
  import opened Allocation
  import opened FileMap
  import opened FileGrowth
  import opened Footprint
  import opened FileContent
  import opened FileExtension
  import opened StreamIo

  /** g are all bytes of the file's used blocks. */
  ghost predicate BlocksAre(v: Volume, h: FcbHeader, g: seq<byte>)
    reads h, v.cache
  {
    FirstBytes(v, v.cache.logical, h.slots, h.nused, 512 * h.nused, g)
  }

  lemma BlocksAreBlocks(v: Volume, h: FcbHeader, g: seq<byte>)
    ensures BlocksAre(v, h, g) <==> g == Blocks(v, h)
  {
    WholeFlat(v, v.cache.logical, h.slots, h.nused, g);
  }

  lemma PatchWhole(b: Block, d: Block)
    ensures Patch(b, 0, d) == d
  {
  }

  /** How the whole volume changed since the old state. */
  twostate predicate FileWrote(v: Volume, h: FcbHeader)
    reads h, v.cache
  {
    Wrote(v, old(v.cache.logical), old(h.slots), old(h.maps), v.cache.logical, h.slots, h.maps)
  }

  /** A contiguous file stays in its place; for every new slot one cluster more is recorded. */
  twostate predicate RunKept(v: Volume, h: FcbHeader)
    reads h
  {
    && Recorded(v, h)
    && (h.contiguous ==> h.nalloc == old(h.nalloc) && h.bmap == old(h.bmap) && h.slots == old(h.slots) && h.maps == old(h.maps))
  }

  // ---------------------------------------------------------------
  // Values
  // ---------------------------------------------------------------

  ghost predicate WrittenKey(k: int)
  {
    true
  }

  /** g is f with d in place of, or after, the bytes from position p on. */
  ghost predicate Written(f: seq<byte>, p: nat, d: seq<byte>, g: seq<byte>)
  {
    && p <= |f| <= |g| && p + |d| <= |g|
    && forall key {:trigger WrittenKey(key)} :: Folded(key) ==>
    && g[..p] == f[..p] && g[p..p + |d|] == d
    && (p + |d| <= |f| ==> g[p + |d|..|f|] == f[p + |d|..])
  }

  lemma WrittenNothing(f: seq<byte>, p: nat)
    requires p <= |f|
    ensures Written(f, p, [], f)
  {
  }

  lemma {:induction false} TailStays(g: seq<byte>, i: nat, e: seq<byte>, n: nat)
    requires i + |e| <= n <= |g|
    ensures Patch(g, i, e)[i + |e|..n] == g[i..n][|e|..]
  {
    assert forall k :: i + |e| <= k < n ==> Patch(g, i, e)[k] == g[k];
  }

  lemma WrittenMore(f: seq<byte>, p: nat, d: seq<byte>, g: seq<byte>, e: seq<byte>)
    requires Written(f, p, d, g) && p + |d| + |e| <= |g|
    ensures Written(f, p, d + e, Patch(g, p + |d|, e))
  {
    assert WrittenKey(0);
    var g' := Patch(g, p + |d|, e);
    assert g'[..p] == g[..p];
    assert g'[p..p + |d + e|] == g[p..p + |d|] + e;
    if p + |d + e| <= |f| {
      TailStays(g, p + |d|, e, |f|);
      assert f[p + |d|..][|e|..] == f[p + |d + e|..];
    }
  }

  lemma WrittenGrown(f: seq<byte>, p: nat, d: seq<byte>, g: seq<byte>, g': seq<byte>)
    requires Written(f, p, d, g) && g <= g'
    ensures Written(f, p, d, g')
  {
    assert WrittenKey(0);
  }

  /** A data block of the file is overwritten: the file is still in order. */
  lemma {:induction false} StateAfterWrite(v: Volume, vol: Image, contiguous: bool, nalloc: nat, nused: nat, bmap: seq<nat>, slots: seq<nat>, maps: seq<nat>,
                        b: nat, data: Block)
    requires FileState(v, vol, contiguous, nalloc, nused, bmap, slots, maps) && |vol| == v.NBlocks()
    requires b < nused && Shr(b, v.clfactor) < |slots|
    ensures Lbn(v, slots, b) < |vol|
    ensures var vol' := vol[Lbn(v, slots, b) := data];
      FileState(v, vol', contiguous, nalloc, nused, bmap, slots, maps) && Wrote(v, vol, slots, maps, vol', slots, maps)
      && Used(v, vol') == Used(v, vol)
  {
    assert FileKey(0);
    if !contiguous { assert ChainKey(0); }
    WroteBlock(v, vol, slots, maps, b, data);
    LbnInFileArea(v, slots, maps, b);
    if !contiguous { MappedFrame(v, vol, vol[Lbn(v, slots, b) := data], bmap, slots, maps); }
  }

  /** ... and its bytes are the old ones with the new data in place. */
  lemma {:induction false} BytesAfterWrite(v: Volume, vol: Image, contiguous: bool, nalloc: nat, nused: nat, bmap: seq<nat>, slots: seq<nat>, maps: seq<nat>,
                        b: nat, i: nat, d: seq<byte>, g: seq<byte>)
    requires FileState(v, vol, contiguous, nalloc, nused, bmap, slots, maps) && |vol| == v.NBlocks()
    requires b < nused && Shr(b, v.clfactor) < |slots| && i + |d| <= 512
    requires FirstBytes(v, vol, slots, nused, 512 * nused, g)
    ensures Lbn(v, slots, b) < |vol| && 512 * b + i + |d| <= |g|
    ensures FirstBytes(v, vol[Lbn(v, slots, b) := Patch(vol[Lbn(v, slots, b)], i, d)], slots, nused, 512 * nused, Patch(g, 512 * b + i, d))
  {
    StateFacts(v, vol, contiguous, nalloc, nused, bmap, slots, maps);
    FlatAfterWrite(v, vol, slots, maps, nused, b, i, d);
    WholeFlat(v, vol, slots, nused, g);
    WholeFlat(v, vol[Lbn(v, slots, b) := Patch(vol[Lbn(v, slots, b)], i, d)], slots, nused, Patch(g, 512 * b + i, d));
  }

  lemma {:induction false} WholeFlat(v: Volume, vol: Image, slots: seq<nat>, nused: nat, g: seq<byte>)
    ensures FirstBytes(v, vol, slots, nused, 512 * nused, g) <==> g == Flat(v, vol, slots, nused)
  {
    assert ContentKey(0);
  }

  // ---------------------------------------------------------------
  // Clusters
  // ---------------------------------------------------------------

  /** Between two states of a file that is to have n blocks, exactly those clusters were taken that
      are not needed any more. */
  ghost predicate Paid(v: Volume, vol: Image, x: Extent, vol': Image, x': Extent, n: nat)
  {
    && After(x', n, v.clfactor) == After(x, n, v.clfactor)
    && |Used(v, vol')| + Cost(x', n, v.clfactor) == |Used(v, vol)| + Cost(x, n, v.clfactor)
  }

  /** The clusters for n blocks are free, or that they are not will be noticed. */
  ghost predicate RoomFor(v: Volume, h: FcbHeader, n: nat)
    reads h, v.cache
  {
    h.contiguous || v.clfactor == 0 || Affordable(v, v.cache.logical, HeaderExtent(v, h), n)
  }

  /** As many clusters are free as growing to n blocks takes. */
  ghost predicate Affordable(v: Volume, vol: Image, x: Extent, n: nat)
  {
    HasFree(v, vol, Cost(x, n, v.clfactor))
  }

  lemma PaidAffordable(v: Volume, vol: Image, x: Extent, vol': Image, x': Extent, n: nat)
    requires Paid(v, vol, x, vol', x', n)
    ensures Affordable(v, vol', x', n) <==> Affordable(v, vol, x, n)
  {
  }

  lemma SteppedIsPaid(v: Volume, vol: Image, x: Extent, err: bool, vol': Image, x': Extent, n: nat)
    requires Stepped(v, vol, x, err, vol', x') && x.nused < n
    ensures if err then !Affordable(v, vol, x, n) else Paid(v, vol, x, vol', x', n)
  {
  }

  /** The blocks of a file after n bytes have been written from byte b of block c on. */
  function BlocksAfter(c: nat, b: nat, n: nat): nat
  {
    c + 1 + if b + n == 0 then 0 else (b + n - 1) / 512
  }

  lemma BlocksAfterNext(c: nat, b: nat, n: nat)
    requires b <= 512 < b + n
    ensures BlocksAfter(c + 1, 0, n - (512 - b)) == BlocksAfter(c, b, n) >= c + 2
  {
    assert (b + n - 1) / 512 == (b + n - 1 - 512) / 512 + 1;
  }

  // ---------------------------------------------------------------
  // One call
  // ---------------------------------------------------------------

  /** A call of file_write: the data, the number of blocks that the file is to have at least, and
      how things stood at the start: accesses held, bytes and position of the file, the volume, and
      the clusters and the size of the file. */
  datatype Job = Job(data: seq<byte>, n: nat, held: multiset<nat>, f: seq<byte>, p: nat, vol: Image, slots: seq<nat>, maps: seq<nat>, x: Extent)

  /** What has been written so far: d, from position p on, into the bytes f. */
  ghost predicate Progress(v: Volume, fcb: Fcb, j: Job, d: seq<byte>, g: seq<byte>)
    reads fcb, fcb.header, v.cache
  {
    FileOk(v, fcb.header) && BlocksAre(v, fcb.header, g) && Written(j.f, j.p, d, g) && Pos(fcb) == j.p + |d|
  }

  /** How the volume has changed so far. */
  ghost predicate Spread(v: Volume, h: FcbHeader, j: Job)
    reads h, v.cache
  {
    Wrote(v, j.vol, j.slots, j.maps, v.cache.logical, h.slots, h.maps)
  }

  /** The clusters taken so far, or that they were too many. */
  ghost predicate Accounted(v: Volume, h: FcbHeader, j: Job, failed: bool)
    reads h, v.cache
  {
    !h.contiguous ==>
      if failed then !Affordable(v, j.vol, j.x, j.n) else Paid(v, j.vol, j.x, v.cache.logical, HeaderExtent(v, h), j.n)
  }

  /** What a step on the way to n blocks does to the number of marked clusters. */
  twostate predicate Charged(v: Volume, h: FcbHeader, n: nat, failed: bool)
    reads h, v.cache
  {
    !h.contiguous ==>
      if failed then !old(Affordable(v, v.cache.logical, HeaderExtent(v, h), n))
      else Paid(v, old(v.cache.logical), old(HeaderExtent(v, h)), v.cache.logical, HeaderExtent(v, h), n)
  }

  lemma AccountOn(v: Volume, j: Job, vol: Image, x: Extent, vol': Image, x': Extent, failed: bool)
    requires Paid(v, j.vol, j.x, vol, x, j.n)
    requires if failed then !Affordable(v, vol, x, j.n) else Paid(v, vol, x, vol', x', j.n)
    ensures if failed then !Affordable(v, j.vol, j.x, j.n) else Paid(v, j.vol, j.x, vol', x', j.n)
  {
    PaidAffordable(v, j.vol, j.x, vol, x, j.n);
  }

  // ---------------------------------------------------------------
  // Steps
  // ---------------------------------------------------------------

  /** memcpy into the held block. */
  method WritePart(v: Volume, fcb: Fcb, buf: nat, part: seq<byte>, ghost lbn: nat, ghost held: multiset<nat>, ghost g: seq<byte>)
    returns (ghost g': seq<byte>)
    requires v.Valid() && FileOk(v, fcb.header) && HoldsBlock(v, fcb, buf, lbn, held)
    requires fcb.byteptr + |part| <= 512 && BlocksAre(v, fcb.header, g)
    modifies v.cache, v.cache.buffer, fcb`byteptr
    ensures v.Valid() && v.cache.Undisturbed() && v.cache.pins == old(v.cache.pins)
    ensures FileOk(v, fcb.header) && HoldsBlock(v, fcb, buf, lbn, held) && FileWrote(v, fcb.header)
    ensures fcb.byteptr == old(fcb.byteptr) + |part|
    ensures Pos(fcb) <= |g| && g' == Patch(g, old(Pos(fcb)), part) && BlocksAre(v, fcb.header, g')
    ensures Used(v, v.cache.logical) == Used(v, old(v.cache.logical))
  {
    var h := fcb.header;
    FileOkFacts(v, h);
    var data := v.cache.Data(buf);
    StateAfterWrite(v, v.cache.logical, h.contiguous, h.nalloc, h.nused, h.bmap, h.slots, h.maps, fcb.curblk, Patch(data, fcb.byteptr, part));
    BytesAfterWrite(v, v.cache.logical, h.contiguous, h.nalloc, h.nused, h.bmap, h.slots, h.maps, fcb.curblk, fcb.byteptr, part, g);
    g' := Patch(g, Pos(fcb), part);
    v.cache.Store(buf, lbn, Patch(data, fcb.byteptr, part));
    fcb.byteptr := fcb.byteptr + |part|;
  }

  /** The bytes of a file that has just grown by one block: the old ones first. */
  lemma GrownBlocks(v: Volume, vol: Image, slots: seq<nat>, maps: seq<nat>, h: FcbHeader, n: nat, g: seq<byte>)
    requires FileOk(v, h) && n <= h.nused && SystemArea(v, vol)
    requires if h.contiguous then v.cache.logical == vol && h.slots == slots else Grew(v, vol, slots, maps, v.cache.logical, h.slots, h.maps)
    requires FirstBytes(v, vol, slots, n, 512 * n, g)
    requires forall b: nat :: b < n ==> Shr(b, v.clfactor) < |slots|
    ensures g <= Blocks(v, h) && BlocksAre(v, h, Blocks(v, h))
  {
    FileOkFacts(v, h);
    assert ContentKey(0);
    if !h.contiguous { FlatAfterGrowth(v, vol, slots, maps, v.cache.logical, h.slots, h.maps, n); }
    FlatPrefix(v, v.cache.logical, h.slots, n, h.nused);
  }

  /** file_extend for the block at the current position. */
  method ExtendAt(v: Volume, fcb: Fcb, ghost g: seq<byte>) returns (err: bool, ghost g': seq<byte>)
    requires v.Valid() && FileOk(v, fcb.header) && |v.cache.pins| + 2 <= NBUFFERS
    requires fcb.curblk == fcb.header.nused && BlocksAre(v, fcb.header, g)
    requires fcb.header.contiguous || v.clfactor == 0 || HasFree(v, v.cache.logical, StepCost(HeaderExtent(v, fcb.header), v.clfactor))
    modifies v.cache, v.cache.buffer, fcb`curalloc, fcb.header
    ensures v.Valid() && v.cache.Kept(old(v.cache.pins))
    ensures RunKept(v, fcb.header)
    ensures fcb.header.lbcount == old(fcb.header.lbcount) && FileWrote(v, fcb.header)
    ensures !fcb.header.contiguous ==> Stepped(v, old(v.cache.logical), old(HeaderExtent(v, fcb.header)), err, v.cache.logical, HeaderExtent(v, fcb.header))
    ensures FileOk(v, fcb.header) <==> !(err && fcb.header.contiguous)
    ensures !err ==> fcb.header.nused == fcb.curblk + 1 && BlocksAre(v, fcb.header, g') && g <= g'
    ensures err ==> if fcb.header.contiguous then fcb.curblk == fcb.header.nalloc == fcb.header.nused - 1 && v.cache.logical == old(v.cache.logical)
      else fcb.header.nused == fcb.curblk && BlocksAre(v, fcb.header, g) && Full(v, v.cache.logical) && v.clfactor == 0
    ensures v.cache.pins == if err && !fcb.header.contiguous then old(v.cache.pins) + multiset{LeakedBlock(v)} else old(v.cache.pins)
  {
    var h := fcb.header;
    ghost var vol, slots, maps := v.cache.logical, h.slots, h.maps;
    assert h.contiguous ==> h.nused <= h.nalloc by { assert FileKey(0); }
    FileOkFacts(v, h);
    WroteNothing(v, vol, slots, maps);
    err := FileExtend(v, fcb, fcb.curblk);
    if !h.contiguous { GrewIsWrote(v, vol, slots, maps, v.cache.logical, h.slots, h.maps); }
    if !(err && h.contiguous) { GrownBlocks(v, vol, slots, maps, h, fcb.curblk, g); }
    g' := Blocks(v, h);
    if err && !h.contiguous { BlocksAreBlocks(v, h, g); }
  }

  /** Hold the block at the current position: as it is, or zeroed when it is new. */
  method HoldForWrite(v: Volume, fcb: Fcb, newblk: bool, ghost g: seq<byte>) returns (buf: nat, lbn: nat, ghost g': seq<byte>)
    requires v.Valid() && FileOk(v, fcb.header) && |v.cache.pins| < NBUFFERS && fcb.curblk < fcb.header.nused
    requires BlocksAre(v, fcb.header, g)
    modifies v.cache, v.cache.buffer, fcb`curblk, fcb`curalloc
    ensures v.Valid() && v.cache.Kept(old(v.cache.pins))
    ensures FileOk(v, fcb.header) && FileWrote(v, fcb.header) && Used(v, v.cache.logical) == Used(v, old(v.cache.logical))
    ensures fcb.curblk == old(fcb.curblk) && HoldsBlock(v, fcb, buf, lbn, old(v.cache.pins))
    ensures BlocksAre(v, fcb.header, g') && |g'| == |g| && g'[..512 * fcb.curblk] == g[..512 * fcb.curblk]
    ensures !newblk ==> g' == g && v.cache.logical == old(v.cache.logical)
  {
    var h := fcb.header;
    FileOkFacts(v, h);
    WroteNothing(v, v.cache.logical, h.slots, h.maps);
    var err;
    err, lbn := VbnToLbn(v, fcb, fcb.curblk);
    LbnInFileArea(v, h.slots, h.maps, fcb.curblk);
    g' := g;
    if newblk {
      StateAfterWrite(v, v.cache.logical, h.contiguous, h.nalloc, h.nused, h.bmap, h.slots, h.maps, fcb.curblk, ZeroBlock());
      BytesAfterWrite(v, v.cache.logical, h.contiguous, h.nalloc, h.nused, h.bmap, h.slots, h.maps, fcb.curblk, 0, ZeroBlock(), g);
      PatchWhole(v.cache.logical[lbn], ZeroBlock());
      g' := Patch(g, 512 * fcb.curblk, ZeroBlock());
      buf := v.GetNew(lbn);
    } else {
      buf := v.Get(lbn);
    }
  }

  lemma PrefixStays(g: seq<byte>, g1: seq<byte>, g': seq<byte>, n: nat)
    requires g <= g1 && |g'| == |g1| && (g' == g1 || (|g| == n && n <= |g1| && g'[..n] == g1[..n]))
    ensures g <= g'
  {
  }

  lemma BytesOfBlocks(v: Volume, h: FcbHeader, g: seq<byte>)
    requires BlocksAre(v, h, g)
    ensures |g| == 512 * h.nused
  {
    BlocksAreBlocks(v, h, g);
  }

  /** Make the current block exist and hold it; a block just created is zeroed on request. */
  method ExtendAndHold(v: Volume, fcb: Fcb, zero: bool, ghost n: nat, ghost g: seq<byte>) returns (err: bool, buf: nat, lbn: nat, ghost g': seq<byte>)
    requires v.Valid() && FileOk(v, fcb.header) && |v.cache.pins| + 2 <= NBUFFERS
    requires fcb.curblk <= fcb.header.nused && BlocksAre(v, fcb.header, g) && fcb.curblk < n && RoomFor(v, fcb.header, n)
    modifies v.cache, v.cache.buffer, fcb`curblk, fcb`curalloc, fcb.header
    ensures v.Valid() && v.cache.Kept(old(v.cache.pins)) && FileWrote(v, fcb.header)
    ensures RunKept(v, fcb.header) && Charged(v, fcb.header, n, err)
    ensures fcb.curblk == old(fcb.curblk) && fcb.header.lbcount == old(fcb.header.lbcount)
    ensures FileOk(v, fcb.header) <==> !(err && fcb.header.contiguous)
    ensures err ==> fcb.curblk == old(fcb.header.nused) && OutOfRoom(v, fcb, old(v.cache.pins))
    ensures err && fcb.header.contiguous ==> v.cache.logical == old(v.cache.logical)
    ensures err && !fcb.header.contiguous ==> BlocksAre(v, fcb.header, g)
    ensures !err ==> HoldsBlock(v, fcb, buf, lbn, old(v.cache.pins)) && BlocksAre(v, fcb.header, g') && g <= g'
    ensures !err ==> fcb.header.nused == if fcb.curblk < old(fcb.header.nused) then old(fcb.header.nused) else fcb.curblk + 1
  {
    var h := fcb.header;
    ghost var vol, slots, maps, x := v.cache.logical, h.slots, h.maps, HeaderExtent(v, h);
    WroteNothing(v, vol, slots, maps);
    BytesOfBlocks(v, h, g);
    var newblk := fcb.curblk >= h.nused;
    ghost var g1 := g;
    err, buf, lbn, g' := false, 0, 0, g;
    if newblk {
      err, g1 := ExtendAt(v, fcb, g);
      if !h.contiguous { SteppedIsPaid(v, vol, x, err, v.cache.logical, HeaderExtent(v, h), n); }
    }
    if !err {
      ghost var vol1, slots1, maps1 := v.cache.logical, h.slots, h.maps;
      FileOkFacts(v, h);
      buf, lbn, g' := HoldForWrite(v, fcb, newblk && zero, g1);
      PrefixStays(g, g1, g', 512 * fcb.curblk);
      WroteTransitive(v, vol, slots, maps, vol1, slots1, maps1, v.cache.logical, h.slots, h.maps);
    }
  }

  /** No further block: a contiguous file has used up its blocks, and claims one more now; or the disk
      is full. */
  ghost predicate OutOfRoom(v: Volume, fcb: Fcb, held: multiset<nat>)
    reads fcb, fcb.header, v.cache
  {
    if fcb.header.contiguous then fcb.curblk == fcb.header.nalloc == fcb.header.nused - 1 && v.cache.pins == held
    else fcb.header.nused == fcb.curblk && Full(v, v.cache.logical) && v.clfactor == 0 && v.cache.pins == held + multiset{LeakedBlock(v)}
  }

  /** Release the held block and move to the start of the next one; the last block's byte count is
      forgotten. */
  method LeaveBlock(v: Volume, fcb: Fcb, buf: nat, ghost lbn: nat, ghost held: multiset<nat>, ghost g: seq<byte>)
    requires v.Valid() && FileOk(v, fcb.header) && BlocksAre(v, fcb.header, g) && HoldsBlock(v, fcb, buf, lbn, held)
    modifies v.cache, v.cache.buffer, fcb`curblk, fcb`byteptr, fcb.header`lbcount
    ensures v.Valid() && v.cache.Kept(held) && v.cache.pins == held && v.cache.logical == old(v.cache.logical)
    ensures FileOk(v, fcb.header) && BlocksAre(v, fcb.header, g)
    ensures fcb.curblk == old(fcb.curblk) + 1 && fcb.byteptr == 0 && fcb.header.lbcount == 0
  {
    v.cache.ReleaseBlock(buf, lbn);
    fcb.curblk := fcb.curblk + 1;
    fcb.byteptr := 0;
    fcb.header.lbcount := 0;
    assert v.cache.Kept(held);
  }

  /** The current block is full: release it and hold the next one, created if necessary.  The
      last block's byte count is forgotten in every case. */
  method NextWriteBlock(v: Volume, fcb: Fcb, buf: nat, ghost lbn: nat, ghost j: Job, ghost d: seq<byte>, ghost g: seq<byte>)
    returns (failed: bool, buf': nat, lbn': nat, ghost g': seq<byte>)
    requires v.Valid() && HoldsBlock(v, fcb, buf, lbn, j.held) && |j.held| + 2 <= NBUFFERS
    requires Progress(v, fcb, j, d, g) && fcb.byteptr == 512 && fcb.curblk + 1 < j.n && RoomFor(v, fcb.header, j.n)
    modifies v.cache, v.cache.buffer, fcb, fcb.header
    ensures v.Valid() && v.cache.Kept(j.held) && FileWrote(v, fcb.header)
    ensures RunKept(v, fcb.header) && Charged(v, fcb.header, j.n, failed)
    ensures fcb.curblk == old(fcb.curblk) + 1 && fcb.byteptr == 0 && fcb.header.lbcount == 0
    ensures if failed && fcb.header.contiguous then !FileOk(v, fcb.header) else Progress(v, fcb, j, d, g')
    ensures failed ==> fcb.curblk == old(fcb.header.nused) && OutOfRoom(v, fcb, j.held)
    ensures !failed ==> HoldsBlock(v, fcb, buf', lbn', j.held)
    ensures !failed ==> fcb.header.nused == if fcb.curblk < old(fcb.header.nused) then old(fcb.header.nused) else fcb.curblk + 1
  {
    LeaveBlock(v, fcb, buf, lbn, j.held, g);
    failed, buf', lbn', g' := ExtendAndHold(v, fcb, true, j.n, g);
    if failed { g' := g; } else { WrittenGrown(j.f, j.p, d, g, g'); }
  }

  /** Adjust the last block's byte count and release the held block. */
  method FinishBlock(v: Volume, fcb: Fcb, buf: nat, ghost lbn: nat, ghost held: multiset<nat>, ghost g: seq<byte>)
    requires v.Valid() && FileOk(v, fcb.header) && BlocksAre(v, fcb.header, g) && HoldsBlock(v, fcb, buf, lbn, held) && fcb.byteptr <= 512
    modifies v.cache, v.cache.buffer, fcb.header`lbcount
    ensures v.Valid() && v.cache.Kept(held) && v.cache.pins == held && v.cache.logical == old(v.cache.logical)
    ensures FileOk(v, fcb.header) && BlocksAre(v, fcb.header, g)
    ensures fcb.header.lbcount ==
      if fcb.header.nused == fcb.curblk + 1 && fcb.byteptr > old(fcb.header.lbcount) then fcb.byteptr else old(fcb.header.lbcount)
  {
    if fcb.header.nused == fcb.curblk + 1 {
      if fcb.byteptr > fcb.header.lbcount { fcb.header.lbcount := fcb.byteptr; }
    }
    assert v.cache.Kept(held);
    v.cache.ReleaseBlock(buf, lbn);
  }

  /** The data fits into the held block: copy it, adjust the last block's byte count, release. */
  method WriteLast(v: Volume, fcb: Fcb, buf: nat, rest: seq<byte>, ghost lbn: nat, ghost j: Job, ghost d: seq<byte>, ghost g: seq<byte>)
    returns (ghost g': seq<byte>)
    requires v.Valid() && HoldsBlock(v, fcb, buf, lbn, j.held)
    requires Progress(v, fcb, j, d, g) && fcb.byteptr + |rest| <= 512
    modifies v.cache, v.cache.buffer, fcb`byteptr, fcb.header`lbcount
    ensures v.Valid() && v.cache.Kept(j.held) && FileWrote(v, fcb.header) && v.cache.pins == j.held
    ensures Progress(v, fcb, j, d + rest, g') && fcb.byteptr == old(fcb.byteptr) + |rest|
    ensures fcb.header.lbcount ==
      if fcb.header.nused == fcb.curblk + 1 && fcb.byteptr > old(fcb.header.lbcount) then fcb.byteptr else old(fcb.header.lbcount)
    ensures Used(v, v.cache.logical) == Used(v, old(v.cache.logical))
  {
    WrittenMore(j.f, j.p, d, g, rest);
    g' := WritePart(v, fcb, buf, rest, lbn, j.held, g);
    assert v.cache.Kept(j.held);
    FinishBlock(v, fcb, buf, lbn, j.held, g');
  }

  /** The data overflows the held block: fill that block and go on to the next one. */
  method WriteAcross(v: Volume, fcb: Fcb, buf: nat, part: seq<byte>, ghost lbn: nat, ghost j: Job, ghost d: seq<byte>, ghost g: seq<byte>)
    returns (failed: bool, buf': nat, lbn': nat, ghost g': seq<byte>)
    requires v.Valid() && HoldsBlock(v, fcb, buf, lbn, j.held) && |j.held| + 2 <= NBUFFERS
    requires Progress(v, fcb, j, d, g) && fcb.byteptr + |part| == 512 && fcb.curblk + 1 < j.n && RoomFor(v, fcb.header, j.n)
    modifies v.cache, v.cache.buffer, fcb, fcb.header
    ensures v.Valid() && v.cache.Kept(j.held) && FileWrote(v, fcb.header)
    ensures RunKept(v, fcb.header) && Charged(v, fcb.header, j.n, failed)
    ensures fcb.curblk == old(fcb.curblk) + 1 && fcb.byteptr == 0 && fcb.header.lbcount == 0
    ensures if failed && fcb.header.contiguous then !FileOk(v, fcb.header) else Progress(v, fcb, j, d + part, g')
    ensures failed ==> fcb.curblk == old(fcb.header.nused) && OutOfRoom(v, fcb, j.held)
    ensures !failed ==> HoldsBlock(v, fcb, buf', lbn', j.held)
    ensures !failed ==> fcb.header.nused == if fcb.curblk < old(fcb.header.nused) then old(fcb.header.nused) else fcb.curblk + 1
  {
    var h := fcb.header;
    ghost var vol, slots, maps := v.cache.logical, h.slots, h.maps;
    WrittenMore(j.f, j.p, d, g, part);
    ghost var g1 := WritePart(v, fcb, buf, part, lbn, j.held, g);
    assert v.cache.Kept(j.held);
    ghost var vol1 := v.cache.logical;
    FileOkFacts(v, h);
    failed, buf', lbn', g' := NextWriteBlock(v, fcb, buf, lbn, j, d + part, g1);
    WroteTransitive(v, vol, slots, maps, vol1, slots, maps, v.cache.logical, h.slots, h.maps);
  }

  /** d is what went before, rest is what is still to be written. */
  ghost predicate Split(data: seq<byte>, d: seq<byte>, rest: seq<byte>)
  {
    && |d| + |rest| == |data|
    && forall key {:trigger WrittenKey(key)} :: Folded(key) ==> data == d + rest
  }

  lemma SplitOn(data: seq<byte>, d: seq<byte>, rest: seq<byte>, n: nat)
    requires Split(data, d, rest) && n <= |rest|
    ensures Split(data, d + rest[..n], rest[n..])
  {
    assert WrittenKey(0);
    assert d + rest == d + rest[..n] + rest[n..];
  }

  /** One turn of the loop for data that overflows the held block. */
  method WriteTurn(v: Volume, fcb: Fcb, buf: nat, rest: seq<byte>, ghost lbn: nat, ghost j: Job, ghost d: seq<byte>, ghost g: seq<byte>)
    returns (rest': seq<byte>, failed: bool, buf': nat, lbn': nat, ghost g': seq<byte>, ghost d': seq<byte>)
    requires v.Valid() && HoldsBlock(v, fcb, buf, lbn, j.held) && |j.held| + 2 <= NBUFFERS && RoomFor(v, fcb.header, j.n)
    requires Progress(v, fcb, j, d, g) && fcb.byteptr <= 512 < fcb.byteptr + |rest| && Split(j.data, d, rest)
    requires BlocksAfter(fcb.curblk, fcb.byteptr, |rest|) == j.n && Spread(v, fcb.header, j) && Accounted(v, fcb.header, j, false)
    modifies v.cache, v.cache.buffer, fcb, fcb.header
    ensures v.Valid() && v.cache.Kept(j.held) && RunKept(v, fcb.header)
    ensures Spread(v, fcb.header, j) && Accounted(v, fcb.header, j, failed)
    ensures fcb.curblk == old(fcb.curblk) + 1 && fcb.byteptr == 0 && fcb.header.lbcount == 0
    ensures Split(j.data, d', rest') && |rest'| == |rest| - (512 - old(fcb.byteptr)) && BlocksAfter(fcb.curblk, 0, |rest'|) == j.n
    ensures if failed && fcb.header.contiguous then !FileOk(v, fcb.header) else Progress(v, fcb, j, d', g')
    ensures failed ==> fcb.curblk == old(fcb.header.nused) && OutOfRoom(v, fcb, j.held)
    ensures !failed ==> HoldsBlock(v, fcb, buf', lbn', j.held) && RoomFor(v, fcb.header, j.n)
    ensures !failed ==> fcb.header.nused == if fcb.curblk < old(fcb.header.nused) then old(fcb.header.nused) else fcb.curblk + 1
  {
    var n := 512 - fcb.byteptr;
    ghost var vol1, slots1, maps1, x1 := v.cache.logical, fcb.header.slots, fcb.header.maps, HeaderExtent(v, fcb.header);
    FileOkFacts(v, fcb.header);
    SplitOn(j.data, d, rest, n);
    BlocksAfterNext(fcb.curblk, fcb.byteptr, |rest|);
    failed, buf', lbn', g' := WriteAcross(v, fcb, buf, rest[..n], lbn, j, d, g);
    WroteTransitive(v, j.vol, j.slots, j.maps, vol1, slots1, maps1, v.cache.logical, fcb.header.slots, fcb.header.maps);
    if !fcb.header.contiguous { AccountOn(v, j, vol1, x1, v.cache.logical, HeaderExtent(v, fcb.header), failed); }
    d' := d + rest[..n];
    rest' := rest[n..];
  }

  /** The blocks before the last one that the data reaches. */
  method WriteFullBlocks(v: Volume, fcb: Fcb, buf0: nat, lbn0: nat, data: seq<byte>, ghost j: Job, ghost g0: seq<byte>)
    returns (rest: seq<byte>, failed: bool, buf: nat, lbn: nat, ghost g: seq<byte>, ghost d: seq<byte>)
    requires v.Valid() && HoldsBlock(v, fcb, buf0, lbn0, j.held) && |j.held| + 2 <= NBUFFERS && RoomFor(v, fcb.header, j.n)
    requires Progress(v, fcb, j, [], g0) && fcb.byteptr <= 512 && data == j.data
    requires BlocksAfter(fcb.curblk, fcb.byteptr, |data|) == j.n && Spread(v, fcb.header, j) && Accounted(v, fcb.header, j, false)
    modifies v.cache, v.cache.buffer, fcb, fcb.header
    ensures v.Valid() && v.cache.Kept(j.held) && RunKept(v, fcb.header)
    ensures Spread(v, fcb.header, j) && Accounted(v, fcb.header, j, failed)
    ensures Split(data, d, rest) && Pos(fcb) == j.p + |d| && fcb.byteptr <= 512 && fcb.curblk >= old(fcb.curblk) && fcb.curblk < j.n
    ensures if failed && fcb.header.contiguous then !FileOk(v, fcb.header) else Progress(v, fcb, j, d, g)
    ensures fcb.header.lbcount == if old(fcb.byteptr) + |data| > 512 then 0 else old(fcb.header.lbcount)
    ensures failed ==> fcb.byteptr == 0 && fcb.curblk >= old(fcb.header.nused) && old(fcb.byteptr) + |data| > 512 && |rest| > 0 && OutOfRoom(v, fcb, j.held)
    ensures !failed ==> HoldsBlock(v, fcb, buf, lbn, j.held) && fcb.byteptr + |rest| <= 512 && fcb.curblk + 1 == j.n
    ensures !failed ==> if old(fcb.byteptr) + |data| <= 512 then fcb.curblk == old(fcb.curblk) else fcb.curblk > old(fcb.curblk) && fcb.byteptr + |rest| > 0
    ensures !failed ==> fcb.header.nused == if fcb.curblk < old(fcb.header.nused) then old(fcb.header.nused) else fcb.curblk + 1
  {
    var h := fcb.header;
    ghost var byteptr := fcb.byteptr;
    rest, failed, buf, lbn, g, d := data, false, buf0, lbn0, g0, [];
    while !failed && fcb.byteptr + |rest| > 512
      invariant v.Valid() && v.cache.Kept(j.held) && RunKept(v, h) && Spread(v, h, j) && Accounted(v, h, j, failed)
      invariant Split(data, d, rest) && Pos(fcb) == j.p + |d| && fcb.byteptr <= 512 && BlocksAfter(fcb.curblk, fcb.byteptr, |rest|) == j.n
      invariant if failed && h.contiguous then !FileOk(v, h) else Progress(v, fcb, j, d, g)
      invariant if fcb.curblk == old(fcb.curblk) then
          |rest| == |data| && fcb.byteptr == byteptr && h.lbcount == old(h.lbcount) && h.nused == old(h.nused)
        else
          fcb.curblk > old(fcb.curblk) && fcb.byteptr == 0 && h.lbcount == 0 && byteptr + |data| > 512 && |rest| > 0
      invariant failed ==> fcb.byteptr == 0 && fcb.curblk >= old(h.nused) && byteptr + |data| > 512 && |rest| > 0 && OutOfRoom(v, fcb, j.held)
      invariant !failed ==> HoldsBlock(v, fcb, buf, lbn, j.held) && RoomFor(v, h, j.n)
      invariant !failed ==> h.nused == if fcb.curblk < old(h.nused) then old(h.nused) else fcb.curblk + 1
      decreases !failed, |rest|, fcb.byteptr
    {
      rest, failed, buf, lbn, g, d := WriteTurn(v, fcb, buf, rest, lbn, j, d, g);
    }
  }

  lemma SplitPrefix(data: seq<byte>, d: seq<byte>, rest: seq<byte>)
    requires Split(data, d, rest)
    ensures d == data[..|data| - |rest|] && d + rest == data
  {
    assert WrittenKey(0);
  }

  /** The end of a successful write: the data fits into the held block. */
  method WriteEnd(v: Volume, fcb: Fcb, buf: nat, rest: seq<byte>, ghost lbn: nat, ghost j: Job, ghost d: seq<byte>, ghost g: seq<byte>)
    requires v.Valid() && HoldsBlock(v, fcb, buf, lbn, j.held)
    requires Progress(v, fcb, j, d, g) && fcb.byteptr + |rest| <= 512 && Split(j.data, d, rest) && Spread(v, fcb.header, j) && Accounted(v, fcb.header, j, false)
    modifies v.cache, v.cache.buffer, fcb`byteptr, fcb.header`lbcount
    ensures v.Valid() && v.cache.Kept(j.held) && v.cache.pins == j.held
    ensures Spread(v, fcb.header, j) && Accounted(v, fcb.header, j, false)
    ensures Pos(fcb) == j.p + |j.data| && fcb.byteptr == old(fcb.byteptr) + |rest|
    ensures FileOk(v, fcb.header) && Written(j.f, j.p, j.data, Blocks(v, fcb.header))
    ensures fcb.header.lbcount ==
      if fcb.header.nused == fcb.curblk + 1 && fcb.byteptr > old(fcb.header.lbcount) then fcb.byteptr else old(fcb.header.lbcount)
  {
    ghost var vol1, slots, maps := v.cache.logical, fcb.header.slots, fcb.header.maps;
    FileOkFacts(v, fcb.header);
    SplitPrefix(j.data, d, rest);
    ghost var g' := WriteLast(v, fcb, buf, rest, lbn, j, d, g);
    WroteTransitive(v, j.vol, j.slots, j.maps, vol1, slots, maps, v.cache.logical, slots, maps);
    BlocksAreBlocks(v, fcb.header, g');
  }

  // ---------------------------------------------------------------
  // file_write
  // ---------------------------------------------------------------

  /** The byte count of the last block after a complete write of len bytes that ended at byte
      b of block c of n: it is forgotten when the data crosses a block boundary. */
  function LastCount(lbcount: nat, byteptr: nat, len: nat, n: nat, c: nat, b: nat): nat
  {
    var base := if byteptr + len > 512 then 0 else lbcount;
    if n == c + 1 && b > base then b else base
  }

  /** The loop, once the block at the current position is held. */
  method WriteHeld(v: Volume, fcb: Fcb, buf0: nat, lbn0: nat, data: seq<byte>, ghost j: Job, ghost g0: seq<byte>)
    returns (nwritten: nat, failed: bool)
    requires v.Valid() && HoldsBlock(v, fcb, buf0, lbn0, j.held) && |j.held| + 2 <= NBUFFERS && RoomFor(v, fcb.header, j.n)
    requires Progress(v, fcb, j, [], g0) && fcb.byteptr <= 512 && data == j.data
    requires BlocksAfter(fcb.curblk, fcb.byteptr, |data|) == j.n && Spread(v, fcb.header, j) && Accounted(v, fcb.header, j, false)
    modifies v.cache, v.cache.buffer, fcb, fcb.header
    ensures v.Valid() && v.cache.Kept(j.held) && RunKept(v, fcb.header)
    ensures Spread(v, fcb.header, j) && Accounted(v, fcb.header, j, failed)
    ensures Pos(fcb) == j.p + nwritten && fcb.curblk >= old(fcb.curblk) && fcb.curblk < j.n && if failed then nwritten < |data| else nwritten == |data|
    ensures if failed && fcb.header.contiguous then !FileOk(v, fcb.header)
      else FileOk(v, fcb.header) && PosOk(fcb) && Written(j.f, j.p, data[..nwritten], Blocks(v, fcb.header))
    ensures !failed ==> fcb.curblk < fcb.header.nused && fcb.curblk + 1 == j.n && v.cache.pins == j.held
    ensures !failed ==> if old(fcb.byteptr) + |data| <= 512 then fcb.curblk == old(fcb.curblk) else fcb.curblk > old(fcb.curblk) && fcb.byteptr > 0
    ensures !failed ==> fcb.header.nused == if fcb.curblk < old(fcb.header.nused) then old(fcb.header.nused) else fcb.curblk + 1
    ensures !failed ==>
      fcb.header.lbcount == LastCount(old(fcb.header.lbcount), old(fcb.byteptr), |data|, fcb.header.nused, fcb.curblk, fcb.byteptr)
    ensures failed ==> fcb.header.lbcount == 0 && OutOfRoom(v, fcb, j.held)
  {
    var h := fcb.header;
    var buf, lbn, rest;
    ghost var g, d;
    rest, failed, buf, lbn, g, d := WriteFullBlocks(v, fcb, buf0, lbn0, data, j, g0);
    SplitPrefix(data, d, rest);
    assert data[..|data|] == data;
    if failed {
      nwritten := |data| - |rest|;
      if !h.contiguous { BlocksAreBlocks(v, h, g); }
    } else {
      WriteEnd(v, fcb, buf, rest, lbn, j, d, g);
      nwritten := |data|;
    }
  }

  /** The number of clusters marked and the size of the file after a call, or why it failed: a
      contiguous file has fewer than n blocks, or the clusters for n blocks are not free. */
  twostate predicate Settled(v: Volume, h: FcbHeader, n: nat, failed: bool)
    reads h, v.cache
  {
    && (failed <==> if h.contiguous then h.nalloc < n else !old(Affordable(v, v.cache.logical, HeaderExtent(v, h), n)))
    && (!failed && !h.contiguous ==>
          && HeaderExtent(v, h) == After(old(HeaderExtent(v, h)), n, v.clfactor)
          && |Used(v, v.cache.logical)| == |Used(v, old(v.cache.logical))| + old(Cost(HeaderExtent(v, h), n, v.clfactor)))
  }

  /** Hold the block at the current position, or find that there is no room for it. */
  method BeginWrite(v: Volume, fcb: Fcb, ghost j: Job) returns (err: bool, buf: nat, lbn: nat, ghost g: seq<byte>)
    requires v.Valid() && FileOk(v, fcb.header) && PosOk(fcb) && |v.cache.pins| + 2 <= NBUFFERS && j.held == v.cache.pins
    requires j.n == BlocksAfter(fcb.curblk, fcb.byteptr, |j.data|) && RoomFor(v, fcb.header, j.n) && j.f == Blocks(v, fcb.header) && j.p == Pos(fcb)
    requires j.vol == v.cache.logical && j.slots == fcb.header.slots && j.maps == fcb.header.maps && j.x == HeaderExtent(v, fcb.header)
    modifies v.cache, v.cache.buffer, fcb`curblk, fcb`curalloc, fcb.header
    ensures v.Valid() && v.cache.Kept(j.held) && Spread(v, fcb.header, j) && Accounted(v, fcb.header, j, err)
    ensures RunKept(v, fcb.header) && fcb.curblk == old(fcb.curblk) && fcb.header.lbcount == old(fcb.header.lbcount)
    ensures err ==> fcb.curblk == old(fcb.header.nused) && OutOfRoom(v, fcb, j.held)
    ensures err ==> if fcb.header.contiguous then !FileOk(v, fcb.header) else FileOk(v, fcb.header) && Written(j.f, j.p, [], Blocks(v, fcb.header))
    ensures !err ==> HoldsBlock(v, fcb, buf, lbn, j.held) && Progress(v, fcb, j, [], g) && RoomFor(v, fcb.header, j.n)
    ensures !err ==> fcb.header.nused == if fcb.curblk < old(fcb.header.nused) then old(fcb.header.nused) else fcb.curblk + 1
  {
    var h := fcb.header;
    BlocksAreBlocks(v, h, j.f);
    FileOkFacts(v, h);
    WrittenNothing(j.f, j.p);
    err, buf, lbn, g := ExtendAndHold(v, fcb, false, j.n, j.f);
    if err {
      if !h.contiguous { BlocksAreBlocks(v, h, j.f); }
    } else {
      WrittenGrown(j.f, j.p, [], j.f, g);
      if !h.contiguous { PaidAffordable(v, j.vol, j.x, v.cache.logical, HeaderExtent(v, h), j.n); }
    }
  }

  /** file_write.  It is complete if and only if the file can have the blocks that the data reaches;
      then exactly the clusters for them are taken. */
  method FileWrite(v: Volume, fcb: Fcb, data: seq<byte>) returns (nwritten: nat, ghost failed: bool)
    requires v.Valid() && FileOk(v, fcb.header) && PosOk(fcb) && |v.cache.pins| + 2 <= NBUFFERS
    requires RoomFor(v, fcb.header, BlocksAfter(fcb.curblk, fcb.byteptr, |data|))
    modifies v.cache, v.cache.buffer, fcb, fcb.header
    ensures v.Valid() && v.cache.Kept(old(v.cache.pins)) && FileWrote(v, fcb.header)
    ensures RunKept(v, fcb.header) && Settled(v, fcb.header, old(BlocksAfter(fcb.curblk, fcb.byteptr, |data|)), failed)
    ensures Pos(fcb) == old(Pos(fcb)) + nwritten && if failed then nwritten < |data| || (data == [] && old(fcb.curblk) == old(fcb.header.nused)) else nwritten == |data|
    ensures if failed && fcb.header.contiguous then !FileOk(v, fcb.header)
      else FileOk(v, fcb.header) && PosOk(fcb) && nwritten <= |data|
           && Written(old(Blocks(v, fcb.header)), old(Pos(fcb)), data[..nwritten], Blocks(v, fcb.header))
    ensures !failed ==> fcb.curblk < fcb.header.nused && v.cache.pins == old(v.cache.pins)
    ensures !failed ==> if old(fcb.byteptr) + |data| <= 512 then fcb.curblk == old(fcb.curblk) else fcb.curblk > old(fcb.curblk) && fcb.byteptr > 0
    ensures !failed ==> fcb.header.nused == if fcb.curblk < old(fcb.header.nused) then old(fcb.header.nused) else fcb.curblk + 1
    ensures !failed ==>
      fcb.header.lbcount == LastCount(old(fcb.header.lbcount), old(fcb.byteptr), |data|, fcb.header.nused, fcb.curblk, fcb.byteptr)
    ensures failed ==> OutOfRoom(v, fcb, old(v.cache.pins)) && (fcb.header.lbcount == 0 || (nwritten == 0 && fcb.header.lbcount == old(fcb.header.lbcount)))
    ensures failed && old(fcb.curblk) < old(fcb.header.nused) ==> fcb.header.lbcount == 0
  {
    var h := fcb.header;
    ghost var j := Job(data, BlocksAfter(fcb.curblk, fcb.byteptr, |data|), v.cache.pins, Blocks(v, h), Pos(fcb), v.cache.logical, h.slots, h.maps, HeaderExtent(v, h));
    var err, buf, lbn;
    ghost var g;
    err, buf, lbn, g := BeginWrite(v, fcb, j);
    if err { return 0, true; }
    nwritten, err := WriteHeld(v, fcb, buf, lbn, data, j, g);
    failed := err;
    if !err { Complete(v, h, j); }
  }

  /** All blocks are there. */
  lemma Complete(v: Volume, h: FcbHeader, j: Job)
    requires FileOk(v, h) && j.n <= h.nused && Accounted(v, h, j, false)
    ensures h.contiguous ==> j.n <= h.nalloc
    ensures !h.contiguous ==> Affordable(v, j.vol, j.x, j.n) && HeaderExtent(v, h) == After(j.x, j.n, v.clfactor)
    ensures !h.contiguous ==> |Used(v, v.cache.logical)| == |Used(v, j.vol)| + Cost(j.x, j.n, v.clfactor)
  {
    assert FileKey(0);
    UsedFits(v, v.cache.logical);
  }
}
