/** Byte-stream access to open files: file_vbn_to_lbn, file_seek, file_pos, end_of_file,
    file_read and file_write of fileio.c. */
module StreamIo {
  import opened Bytes
  import opened BufferCache
  import opened Volumes
  import opened Allocation
  import opened FileMap
  import opened FileGrowth
  import opened FileContent
  import opened FileExtension

  // ---------------------------------------------------------------
  // What an open file means
  // ---------------------------------------------------------------

  /** File size = (used blocks - 1) * 512 + last block byte count. */
  function SizeOf(h: FcbHeader): nat
    reads h
  {
    if h.nused == 0 then 0 else 512 * (h.nused - 1) + h.lbcount
  }

  function Pos(fcb: Fcb): nat
    reads fcb
  {
    512 * fcb.curblk + fcb.byteptr
  }

  /** All bytes of the file's used blocks. */
  ghost function Blocks(v: Volume, h: FcbHeader): (f: seq<byte>)
    reads h, v.cache
    ensures |f| == 512 * h.nused
  {
    Flat(v, v.cache.logical, h.slots, h.nused)
  }

  /** The bytes of the file. */
  ghost function Content(v: Volume, h: FcbHeader): (f: seq<byte>)
    requires h.lbcount <= 512
    reads h, v.cache
    ensures |f| == SizeOf(h)
  {
    Blocks(v, h)[..SizeOf(h)]
  }

  ghost predicate ContentKey(k: int)
  {
    true
  }

  /** content is the first size bytes of the file's blocks. */
  ghost predicate FirstBytes(v: Volume, vol: Image, slots: seq<nat>, nused: nat, size: nat, content: seq<byte>)
  {
    && |content| == size
    && forall key {:trigger ContentKey(key)} :: Folded(key) ==>
    size <= 512 * nused && content == Flat(v, vol, slots, nused)[..size]
  }

  /** content are the bytes of the file. */
  ghost predicate ContentIs(v: Volume, h: FcbHeader, content: seq<byte>)
    reads h, v.cache
  {
    FirstBytes(v, v.cache.logical, h.slots, h.nused, SizeOf(h), content)
  }

  lemma ContentIsContent(v: Volume, h: FcbHeader, content: seq<byte>)
    requires h.lbcount <= 512
    ensures ContentIs(v, h, content) <==> content == Content(v, h)
  {
    assert ContentKey(0);
  }

  /** Positions that seeking, reading and writing leave behind. */
  ghost predicate PosOk(fcb: Fcb)
    reads fcb, fcb.header
  {
    fcb.curblk <= fcb.header.nused && fcb.byteptr <= 512 && (fcb.curblk == fcb.header.nused ==> fcb.byteptr == 0)
  }

  lemma StateFacts(v: Volume, vol: Image, contiguous: bool, nalloc: nat, nused: nat, bmap: seq<nat>, slots: seq<nat>, maps: seq<nat>)
    requires FileState(v, vol, contiguous, nalloc, nused, bmap, slots, maps)
    ensures SystemArea(v, vol) && Placed(v, slots, maps) && Owned(v, slots, maps) <= Used(v, vol)
    ensures forall b: nat :: b < nused ==> Shr(b, v.clfactor) < |slots|
  {
    assert FileKey(0);
    assert ChainKey(0);
    forall b: nat | b < nused ensures Shr(b, v.clfactor) < |slots| {
      BlockInClusters(b, nused, v.clfactor);
      if contiguous { ClustersMonotone(nused, nalloc, v.clfactor); }
    }
  }

  lemma FileOkFacts(v: Volume, h: FcbHeader)
    requires FileOk(v, h)
    ensures SystemArea(v, v.cache.logical) && Placed(v, h.slots, h.maps)
    ensures Owned(v, h.slots, h.maps) <= Used(v, v.cache.logical)
    ensures forall b: nat :: b < h.nused ==> Shr(b, v.clfactor) < |h.slots|
  {
    StateFacts(v, v.cache.logical, h.contiguous, h.nalloc, h.nused, h.bmap, h.slots, h.maps);
  }

  // ---------------------------------------------------------------
  // file_vbn_to_lbn
  // ---------------------------------------------------------------

  /** A contiguous file's blocks follow its first one. */
  lemma {:induction false} ContiguousLbn(v: Volume, h: FcbHeader, b: nat)
    requires FileOk(v, h) && h.contiguous && b < h.nused
    ensures Shr(b, v.clfactor) < |h.slots| && Lbn(v, h.slots, b) == h.bmap[0] + b
  {
    FileOkFacts(v, h);
    assert FileKey(0);
    SplitBlock(h.bmap[0], v.clfactor);
    SplitBlock(b, v.clfactor);
    ShlAdd(Shr(h.bmap[0], v.clfactor), Shr(b, v.clfactor), v.clfactor);
  }

  /** The entry found by the direct pointers or in the map block that the chain walk holds. */
  lemma StoredEntry(v: Volume, h: FcbHeader, c: nat)
    requires FileOk(v, h) && !h.contiguous && c < |h.slots| && c < Clusters(h.nused, v.clfactor)
    ensures ChainedFile(v, h)
    ensures c < DIRECT ==> h.bmap[c] == Shl(h.slots[c], v.clfactor) > 0
    ensures c >= DIRECT ==> (c - DIRECT) / PER_MAP < |h.maps| && h.maps[(c - DIRECT) / PER_MAP] < |v.cache.logical|
    ensures c >= DIRECT ==>
      Get24(v.cache.logical[h.maps[(c - DIRECT) / PER_MAP]], 6 + 3 * ((c - DIRECT) % PER_MAP)) == Shl(h.slots[c], v.clfactor)
  {
    assert FileKey(0);
    if c < DIRECT {
      FirstMapPointer(v, v.cache.logical, h.bmap, h.slots, h.maps);
      assert ChainKey(0);
      MappedDirect(v, v.cache.logical, h.bmap, h.slots, h.maps);
    } else {
      var k, s := (c - DIRECT) / PER_MAP, (c - DIRECT) % PER_MAP;
      assert EntryIndex(k, s) == c;
      assert ChainKey(0);
      MappedBlock(v, v.cache.logical, h.bmap, h.slots, h.maps, k);
      MapBlockEntry(v, v.cache.logical[h.maps[k]], h.slots, h.maps, k, s);
    }
  }

  /** The entry of a cluster beyond the direct pointers. */
  method MappedEntry(v: Volume, fcb: Fcb, vcn: nat) returns (lbn: nat)
    requires v.Valid() && FileOk(v, fcb.header) && !fcb.header.contiguous && |v.cache.pins| < NBUFFERS
    requires DIRECT <= vcn < |fcb.header.slots| && vcn < Clusters(fcb.header.nused, v.clfactor)
    modifies v.cache, v.cache.buffer, fcb`curalloc
    ensures v.Valid() && v.cache.Kept(old(v.cache.pins))
    ensures v.cache.logical == old(v.cache.logical) && v.cache.pins == old(v.cache.pins)
    ensures lbn == Shl(fcb.header.slots[vcn], v.clfactor)
    ensures (vcn - DIRECT) / PER_MAP < |fcb.header.maps| && fcb.curalloc == fcb.header.maps[(vcn - DIRECT) / PER_MAP]
  {
    StoredEntry(v, fcb.header, vcn);
    var buf, rest := WalkChain(v, fcb, vcn - DIRECT);
    var data := v.cache.Data(buf);
    lbn := Get24(data, 6 + rest * 3);
    v.cache.ReleaseBlock(buf, fcb.curalloc);
  }

  /** Translate a virtual block: fails exactly beyond the used blocks, and otherwise gives the
      block's place and makes it the current one. */
  method VbnToLbn(v: Volume, fcb: Fcb, vbn: nat) returns (err: bool, lbn: nat)
    requires v.Valid() && FileOk(v, fcb.header) && |v.cache.pins| < NBUFFERS
    modifies v.cache, v.cache.buffer, fcb`curblk, fcb`curalloc
    ensures v.Valid() && v.cache.Kept(old(v.cache.pins))
    ensures v.cache.logical == old(v.cache.logical) && v.cache.pins == old(v.cache.pins)
    ensures err <==> vbn >= fcb.header.nused
    ensures fcb.curblk == if err then old(fcb.curblk) else vbn
    ensures !err ==> Shr(vbn, v.clfactor) < |fcb.header.slots| && lbn == Lbn(v, fcb.header.slots, vbn)
    ensures err || fcb.header.contiguous ==> fcb.curalloc == old(fcb.curalloc)
    ensures !err && !fcb.header.contiguous ==>
      var m := Shr(vbn, v.clfactor) - DIRECT;
      if m < 0 then fcb.curalloc == 0 else m / PER_MAP < |fcb.header.maps| && fcb.curalloc == fcb.header.maps[m / PER_MAP]
  {
    var h := fcb.header;
    FileOkFacts(v, h);
    if h.nused == 0 { return true, 0; }
    if vbn >= h.nused { return true, 0; }
    fcb.curblk := vbn;
    assert v.cache.Kept(old(v.cache.pins));
    if h.contiguous {
      ContiguousLbn(v, h, vbn);
      return false, h.bmap[0] + vbn;
    }
    var vcn := Shr(vbn, v.clfactor);
    BlockInClusters(vbn, h.nused, v.clfactor);
    StoredEntry(v, h, vcn);
    if vcn < DIRECT {
      fcb.curalloc := 0;
      return false, h.bmap[vcn] + Low(vbn, v.clfactor);
    }
    lbn := MappedEntry(v, fcb, vcn);
    return false, lbn + Low(vbn, v.clfactor);
  }

  // ---------------------------------------------------------------
  // file_pos, end_of_file, file_seek
  // ---------------------------------------------------------------

  /** end_of_file */
  predicate AtEnd(fcb: Fcb)
    reads fcb, fcb.header
  {
    if fcb.curblk >= fcb.header.nused then true
    else if fcb.curblk == fcb.header.nused - 1 then fcb.byteptr >= fcb.header.lbcount
    else false
  }

  /** end_of_file reports a position at or beyond the size; the one exception is a last block
      without bytes, seen from the end of the block before it. */
  lemma AtEndMeansSize(fcb: Fcb)
    requires PosOk(fcb) && fcb.header.lbcount <= 512
    ensures AtEnd(fcb) ==> Pos(fcb) >= SizeOf(fcb.header)
    ensures Pos(fcb) >= SizeOf(fcb.header) ==>
      AtEnd(fcb) || (fcb.header.lbcount == 0 && fcb.byteptr == 512 && fcb.curblk + 2 == fcb.header.nused)
  {
  }

  /** Move to a byte position, or to the end of the file if it lies beyond. */
  method FileSeek(v: Volume, fcb: Fcb, pos: nat) returns (err: bool)
    requires v.Valid() && FileOk(v, fcb.header) && |v.cache.pins| < NBUFFERS
    modifies v.cache, v.cache.buffer, fcb
    ensures v.Valid() && v.cache.Kept(old(v.cache.pins))
    ensures v.cache.logical == old(v.cache.logical) && v.cache.pins == old(v.cache.pins)
    ensures PosOk(fcb) && Pos(fcb) == if pos < SizeOf(fcb.header) then pos else SizeOf(fcb.header)
    ensures fcb.header.nused > 0 ==> fcb.curblk < fcb.header.nused
    ensures fcb.byteptr == 512 ==> Pos(fcb) == SizeOf(fcb.header)
    ensures err <==> fcb.header.nused == 0
  {
    var h := fcb.header;
    var vbn := pos / 512;
    fcb.byteptr := pos % 512;
    if h.nused == 0 {
      fcb.curblk := 0;
      fcb.byteptr := 0;
      return true;
    } else if vbn == h.nused - 1 {
      if fcb.byteptr > h.lbcount { fcb.byteptr := h.lbcount; }
    } else if vbn >= h.nused {
      vbn := h.nused - 1;
      fcb.byteptr := h.lbcount;
    }
    assert v.cache.Kept(old(v.cache.pins));
    var lbn;
    err, lbn := VbnToLbn(v, fcb, vbn);
  }

  // ---------------------------------------------------------------
  // file_read
  // ---------------------------------------------------------------

  /** Bytes of the current block that belong to the file. */
  function BufLen(fcb: Fcb): nat
    reads fcb, fcb.header
  {
    if fcb.curblk + 1 == fcb.header.nused then fcb.header.lbcount else 512
  }

  /** The current block is held in buffer buf. */
  ghost predicate HoldsBlock(v: Volume, fcb: Fcb, buf: nat, lbn: nat, held: multiset<nat>)
    reads fcb, fcb.header, v.cache, v.cache.buffer
  {
    && fcb.curblk < fcb.header.nused
    && Shr(fcb.curblk, v.clfactor) < |fcb.header.slots| && lbn == Lbn(v, fcb.header.slots, fcb.curblk)
    && v.cache.Owns(buf, lbn) && v.cache.pins == held + multiset{lbn}
  }

  /** ++curblk, and hold the next block if there is one. */
  method NextReadBlock(v: Volume, fcb: Fcb, buf: nat, ghost lbn: nat, ghost held: multiset<nat>)
    returns (end: bool, next: nat, lbn': nat)
    requires v.Valid() && FileOk(v, fcb.header) && |held| < NBUFFERS
    requires HoldsBlock(v, fcb, buf, lbn, held)
    modifies v.cache, v.cache.buffer, fcb
    ensures v.Valid() && v.cache.Kept(held)
    ensures v.cache.logical == old(v.cache.logical)
    ensures fcb.curblk == old(fcb.curblk) + 1 && fcb.byteptr == 0
    ensures end <==> fcb.curblk == fcb.header.nused
    ensures if end then v.cache.pins == held else HoldsBlock(v, fcb, next, lbn', held)
  {
    v.cache.ReleaseBlock(buf, lbn);
    fcb.curblk := fcb.curblk + 1;
    fcb.byteptr := 0;
    assert v.cache.Kept(held);
    end, lbn' := VbnToLbn(v, fcb, fcb.curblk);
    next := 0;
    if !end {
      FileOkFacts(v, fcb.header);
      LbnInFileArea(v, fcb.header.slots, fcb.header.maps, fcb.curblk);
      next := v.Get(lbn');
    }
  }

  /** The bytes of a file from position p up to position q. */
  ghost function Slice(f: seq<byte>, p: nat, q: nat): (r: seq<byte>)
  {
    if p < q <= |f| then Slice(f, p, q - 1) + [f[q - 1]] else []
  }

  lemma {:induction false} SliceIs(f: seq<byte>, p: nat, q: nat)
    requires p <= q <= |f|
    ensures Slice(f, p, q) == f[p..q]
  {
    if p < q {
      SliceIs(f, p, q - 1);
      assert f[p..q] == f[p..q - 1] + [f[q - 1]];
    }
  }

  lemma {:induction false} PartOfContent(v: Volume, vol: Image, slots: seq<nat>, nused: nat, size: nat, content: seq<byte>, b: nat, i: nat, j: nat)
    requires FirstBytes(v, vol, slots, nused, size, content)
    requires b < nused && i <= j <= 512 && 512 * b + j <= size
    ensures Slice(content, 512 * b + i, 512 * b + j) == FileBlock(v, vol, slots, b)[i..j]
  {
    assert ContentKey(0);
    var f, p, q := Flat(v, vol, slots, nused), 512 * b + i, 512 * b + j;
    SliceIs(content, p, q);
    FlatSlice(v, vol, slots, nused, b, i, j);
    assert f[..size][p..q] == f[p..q];
  }

  /** Bytes i to j of the held block, as bytes of the file. */
  lemma {:induction false} HeldBytes(v: Volume, fcb: Fcb, buf: nat, lbn: nat, held: multiset<nat>, i: nat, j: nat, content: seq<byte>)
    requires v.Valid() && FileOk(v, fcb.header) && HoldsBlock(v, fcb, buf, lbn, held) && i <= j <= BufLen(fcb)
    requires ContentIs(v, fcb.header, content)
    ensures lbn < |v.cache.logical|
    ensures v.cache.logical[lbn][i..j] == Slice(content, 512 * fcb.curblk + i, 512 * fcb.curblk + j)
  {
    var h := fcb.header;
    FileOkFacts(v, h);
    LbnInFileArea(v, h.slots, h.maps, fcb.curblk);
    PartOfContent(v, v.cache.logical, h.slots, h.nused, SizeOf(h), content, fcb.curblk, i, j);
  }

  /** memcpy of the next n bytes of the held block. */
  method ReadPart(v: Volume, fcb: Fcb, buf: nat, n: nat, ghost lbn: nat, ghost held: multiset<nat>, ghost content: seq<byte>)
    returns (part: seq<byte>)
    requires v.Valid() && FileOk(v, fcb.header) && HoldsBlock(v, fcb, buf, lbn, held)
    requires fcb.byteptr + n <= BufLen(fcb) && ContentIs(v, fcb.header, content)
    modifies fcb`byteptr
    ensures fcb.byteptr == old(fcb.byteptr) + n && |part| == n
    ensures part == Slice(content, old(Pos(fcb)), old(Pos(fcb)) + n)
  {
    HeldBytes(v, fcb, buf, lbn, held, fcb.byteptr, fcb.byteptr + n, content);
    var data := v.cache.Data(buf);
    part := data[fcb.byteptr..fcb.byteptr + n];
    fcb.byteptr := fcb.byteptr + n;
  }

  /** Adjacent slices join; both are empty rather than undefined beyond the end. */
  lemma {:induction false} SliceJoin(f: seq<byte>, p: nat, q: nat, r: nat)
    requires p <= q <= r <= |f|
    ensures Slice(f, p, q) + Slice(f, q, r) == Slice(f, p, r)
  {
    SliceIs(f, p, q);
    SliceIs(f, q, r);
    SliceIs(f, p, r);
    assert f[p..q] + f[q..r] == f[p..r];
  }

  /** Read up to len bytes from the current position on. */
  method FileRead(v: Volume, fcb: Fcb, len: nat) returns (out: seq<byte>)
    requires v.Valid() && FileOk(v, fcb.header) && PosOk(fcb) && |v.cache.pins| < NBUFFERS
    modifies v.cache, v.cache.buffer, fcb
    ensures v.Valid() && v.cache.Kept(old(v.cache.pins))
    ensures v.cache.logical == old(v.cache.logical) && v.cache.pins == old(v.cache.pins)
    ensures PosOk(fcb) && Pos(fcb) == old(Pos(fcb)) + |out|
    ensures |out| == if old(Pos(fcb)) >= SizeOf(fcb.header) then 0
                     else if old(Pos(fcb)) + len <= SizeOf(fcb.header) then len else SizeOf(fcb.header) - old(Pos(fcb))
    ensures out == Slice(Content(v, fcb.header), old(Pos(fcb)), old(Pos(fcb)) + |out|)
  {
    AtEndMeansSize(fcb);
    ghost var content := Content(v, fcb.header);
    ContentIsContent(v, fcb.header, content);
    if fcb.header.nused == 0 { return []; }
    if AtEnd(fcb) { return []; }
    out := ReadBlocks(v, fcb, len, content);
  }

  /** One turn of the copy loop: what the held block still has to offer, then either the end of
      the read, with the block released, or the next block. */
  method ReadTurn(v: Volume, fcb: Fcb, buf: nat, lbn: nat, rest: nat, out: seq<byte>, ghost pos: nat,
                  ghost held: multiset<nat>, ghost content: seq<byte>)
    returns (out': seq<byte>, done: bool, buf': nat, lbn': nat)
    requires v.Valid() && FileOk(v, fcb.header) && |held| < NBUFFERS
    requires HoldsBlock(v, fcb, buf, lbn, held) && fcb.byteptr <= BufLen(fcb) && ContentIs(v, fcb.header, content)
    requires Pos(fcb) == pos + |out| && out == Slice(content, pos, Pos(fcb))
    modifies v.cache, v.cache.buffer, fcb
    ensures v.Valid() && v.cache.Kept(held) && v.cache.logical == old(v.cache.logical)
    ensures |out| <= |out'| <= |out| + rest && Pos(fcb) == pos + |out'| <= |content|
    ensures out' == Slice(content, pos, Pos(fcb))
    ensures if done then
        PosOk(fcb) && v.cache.pins == held && (|out'| == |out| + rest || Pos(fcb) == |content|)
      else
        HoldsBlock(v, fcb, buf', lbn', held) && fcb.byteptr <= BufLen(fcb) && fcb.curblk > old(fcb.curblk)
  {
    var buflen := BufLen(fcb);
    var fits := fcb.byteptr + rest <= buflen;
    var n := if fits then rest else buflen - fcb.byteptr;
    var part := ReadPart(v, fcb, buf, n, lbn, held, content);
    SliceJoin(content, pos, pos + |out|, pos + |out| + n);
    out' := out + part;
    assert v.cache.Kept(held);
    buf', lbn' := buf, lbn;
    if fits || buflen < 512 {
      v.cache.ReleaseBlock(buf, lbn);
      done := true;
    } else {
      done, buf', lbn' := NextReadBlock(v, fcb, buf, lbn, held);
    }
  }

  /** Hold the block at the current position. */
  method HoldCurrent(v: Volume, fcb: Fcb) returns (buf: nat, lbn: nat)
    requires v.Valid() && FileOk(v, fcb.header) && |v.cache.pins| < NBUFFERS && fcb.curblk < fcb.header.nused
    modifies v.cache, v.cache.buffer, fcb`curblk, fcb`curalloc
    ensures v.Valid() && v.cache.Kept(old(v.cache.pins)) && v.cache.logical == old(v.cache.logical)
    ensures fcb.curblk == old(fcb.curblk) && HoldsBlock(v, fcb, buf, lbn, old(v.cache.pins))
  {
    var err;
    FileOkFacts(v, fcb.header);
    err, lbn := VbnToLbn(v, fcb, fcb.curblk);
    LbnInFileArea(v, fcb.header.slots, fcb.header.maps, fcb.curblk);
    buf := v.Get(lbn);
  }

  /** The copy loop of file_read, from a position inside the current block. */
  method ReadBlocks(v: Volume, fcb: Fcb, len: nat, ghost content: seq<byte>) returns (out: seq<byte>)
    requires v.Valid() && FileOk(v, fcb.header) && |v.cache.pins| < NBUFFERS && ContentIs(v, fcb.header, content)
    requires fcb.curblk < fcb.header.nused && fcb.byteptr <= BufLen(fcb)
    modifies v.cache, v.cache.buffer, fcb
    ensures v.Valid() && v.cache.Kept(old(v.cache.pins))
    ensures v.cache.logical == old(v.cache.logical) && v.cache.pins == old(v.cache.pins)
    ensures PosOk(fcb) && Pos(fcb) == old(Pos(fcb)) + |out|
    ensures |out| == if old(Pos(fcb)) + len <= |content| then len else |content| - old(Pos(fcb))
    ensures out == Slice(content, old(Pos(fcb)), old(Pos(fcb)) + |out|)
  {
    ghost var vol, held, pos := v.cache.logical, v.cache.pins, Pos(fcb);
    var buf, lbn := HoldCurrent(v, fcb);
    var done := false;
    out := [];
    while !done
      invariant v.Valid() && v.cache.Kept(held) && v.cache.logical == vol
      invariant if done then PosOk(fcb) && v.cache.pins == held && (|out| == len || Pos(fcb) == |content|)
                else HoldsBlock(v, fcb, buf, lbn, held) && fcb.byteptr <= BufLen(fcb)
      invariant Pos(fcb) == pos + |out| <= |content| && |out| <= len
      invariant out == Slice(content, pos, Pos(fcb))
      decreases !done, fcb.header.nused - fcb.curblk
    {
      out, done, buf, lbn := ReadTurn(v, fcb, buf, lbn, len - |out|, out, pos, held, content);
    }
  }
}
