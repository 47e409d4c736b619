/** check_alloc_map of check.c: rebuild the allocation bitmap from the inodes, then compare it
    with the bitmap on disk and correct that. */
module Checker {
  import opened Bytes
  import opened BufferCache
  import opened Volumes
  import opened FileMap
  import opened Deletion
  import opened VolumeRuns
  import opened Inodes
  import opened CheckerClaims

  // ---------------------------------------------------------------
  // The bitmap in memory
  // ---------------------------------------------------------------

  ghost predicate MarkKey(k: int)
  {
    true
  }

  /** The clusters marked in a bitmap, most significant bit first. */
  ghost function Marked(bm: seq<byte>): set<nat>
  {
    set c: nat | c < 8 * |bm| && BitOf(bm[c / 8], c % 8)
  }

  lemma MarkBit(bm: seq<byte>, c: nat)
    requires c / 8 < |bm|
    ensures (And(bm[c / 8], Mask(c % 8)) == 0) == (c !in Marked(bm))
    ensures Or(bm[c / 8], Mask(c % 8)) < 256
    ensures Marked(bm[c / 8 := Or(bm[c / 8], Mask(c % 8))]) == Marked(bm) + {c}
  {
    MaskBits(bm[c / 8], c % 8);
    var bm' := bm[c / 8 := Or(bm[c / 8], Mask(c % 8))];
    forall d: nat | d < 8 * |bm| ensures BitOf(bm'[d / 8], d % 8) == (d == c || BitOf(bm[d / 8], d % 8)) {
      assert d / 8 == c / 8 && d % 8 == c % 8 ==> d == c;
    }
  }

  /** What the rebuilding has done since the old state: the given clusters are marked, in this
      order, and those met twice were counted. */
  ghost predicate Claimed(was: seq<byte>, now: seq<byte>, claims: seq<nat>, errs: nat)
  {
    && |now| == |was|
    && forall key {:trigger MarkKey(key)} :: Folded(key) ==>
    Marked(now) == Marked(was) + Elems(claims) && errs == Repeats(Marked(was), claims)
  }

  lemma ClaimedNothing(bm: seq<byte>)
    ensures Claimed(bm, bm, [], 0)
  {
    assert Elems([]) == {} && Marked(bm) + {} == Marked(bm);
    assert Repeats(Marked(bm), []) == 0;
  }

  lemma ClaimedMore(a: seq<byte>, b: seq<byte>, c: seq<byte>, p: seq<nat>, e: nat, q: seq<nat>, f: nat)
    requires Claimed(a, b, p, e) && Claimed(b, c, q, f)
    ensures Claimed(a, c, p + q, e + f)
  {
    assert MarkKey(0);
    RepeatsAppend(Marked(a), p, q);
    ElemsAppend(p, q);
  }

  /** Mark one cluster, or count it if it is marked already.  k and mask are its byte and bit. */
  method MarkAt(bm: array<byte>, k: nat, mask: nat, ghost clno: nat) returns (err: nat)
    requires k == clno / 8 < bm.Length && mask == Mask(clno % 8)
    modifies bm
    ensures Claimed(old(bm[..]), bm[..], [clno], err)
  {
    ghost var was := bm[..];
    MarkBit(was, clno);
    assert Elems([clno]) == {clno};
    assert Repeats(Marked(was), [clno]) == if clno in Marked(was) then 1 else 0;
    if And(bm[k], mask) != 0 {
      assert Marked(was) + {clno} == Marked(was);
      err := 1;
    } else {
      bm[k] := Or(bm[k], mask);
      assert bm[..] == was[k := Or(was[k], mask)];
      err := 0;
    }
  }

  /** 0x80 >> (clno & 7), clno / 8 */
  method MarkCluster(bm: array<byte>, clno: nat) returns (err: nat)
    requires clno / 8 < bm.Length
    modifies bm
    ensures Claimed(old(bm[..]), bm[..], [clno], err)
  {
    err := MarkAt(bm, clno / 8, Mask(clno % 8), clno);
  }

  // ---------------------------------------------------------------
  // One inode
  // ---------------------------------------------------------------

  /** A contiguous file: ncls bits from clno on, with a running mask. */
  method MarkRun(bm: array<byte>, clno: nat, ncls: nat, ghost slots: seq<nat>) returns (errs: nat)
    requires |slots| == ncls && forall n: nat :: n < ncls ==> slots[n] == clno + n && slots[n] / 8 < bm.Length
    modifies bm
    ensures Claimed(old(bm[..]), bm[..], slots, errs)
  {
    var mask, k := Mask(clno % 8), clno / 8;
    errs := 0;
    ClaimedNothing(bm[..]);
    var j := 0;
    while j < ncls
      invariant j <= ncls && k == (clno + j) / 8 && mask == Mask((clno + j) % 8)
      invariant Claimed(old(bm[..]), bm[..], slots[..j], errs)
    {
      ghost var b := bm[..];
      var err := MarkAt(bm, k, mask, slots[j]);
      ClaimedMore(old(bm[..]), b, bm[..], slots[..j], errs, [slots[j]], err);
      assert slots[..j] + [slots[j]] == slots[..j + 1];
      errs := errs + err;
      k, mask := NextBit(clno + j, k, mask);
      j := j + 1;
    }
    assert slots[..ncls] == slots;
  }

  /** mask >>= 1, and at 0 on to the next byte */
  method NextBit(ghost c: nat, k: nat, mask: nat) returns (k': nat, mask': nat)
    requires k == c / 8 && mask == Mask(c % 8)
    ensures k' == (c + 1) / 8 && mask' == Mask((c + 1) % 8)
  {
    k', mask' := k, mask / 2;
    if mask' == 0 { k', mask' := k + 1, 0x80; }
  }

  /** The direct pointers. */
  method MarkDirect(v: Volume, bm: array<byte>, e: Inode, ghost vol: Image, ghost f: File) returns (errs: nat)
    requires !f.contiguous && f.bmap == Pointers(e) && v.NClusters() <= 8 * bm.Length
    requires Readable(v, vol, f)
    modifies bm
    ensures Claimed(old(bm[..]), bm[..], Front(f.slots, DIRECT), errs)
  {
    assert ReadKey(0);
    MappedDirect(v, vol, f.bmap, f.slots, f.maps);
    var blkptr := 32;
    ghost var n := 0;
    errs := 0;
    ClaimedNothing(bm[..]);
    while blkptr < 47
      invariant n <= 5 && blkptr == 32 + 3 * n
      invariant Claimed(old(bm[..]), bm[..], Front(f.slots, n), errs)
    {
      ghost var b := bm[..];
      var clno := Shr(Get24(e, blkptr), v.clfactor);
      assert Get24(e, blkptr) == f.bmap[n];
      DirectCluster(v, f, n);
      if clno > 0 {
        var err := MarkCluster(bm, clno);
        ClaimedMore(old(bm[..]), b, bm[..], Front(f.slots, n), errs, [clno], err);
        errs := errs + err;
      }
      blkptr, n := blkptr + 3, n + 1;
    }
  }

  lemma DirectCluster(v: Volume, f: File, n: nat)
    requires forall n: nat :: n < |f.slots| ==> 0 < f.slots[n] < v.NClusters()
    ensures var clno := Shr(Entry(v, f.slots, n), v.clfactor);
      if n < |f.slots| then clno == f.slots[n] > 0 && Front(f.slots, n + 1) == Front(f.slots, n) + [clno]
      else clno == 0 && Front(f.slots, n + 1) == Front(f.slots, n)
  {
    if n < |f.slots| {
      JoinBlock(f.slots[n], 0, v.clfactor);
    } else {
      ShrBound(0, v.clfactor);
      assert n == |f.slots| ==> f.slots[..n] == f.slots;
    }
  }

  /** Where the walk along the map blocks stands before entry j: block k is held, unless there is
      none. */
  ghost predicate WalkAt(v: Volume, f: File, j: nat, k: nat, buf: nat, next: nat, blkptr: nat, held: multiset<nat>)
    reads v.cache, v.cache.buffer
  {
    if f.maps == [] then
      next == 0 && blkptr == 512 && v.cache.pins == held
    else
      && k < |f.maps| && v.cache.Owns(buf, f.maps[k]) && v.cache.pins == held + multiset{f.maps[k]}
      && next == MapAt(f.maps, k + 1) && 6 <= blkptr <= 510 && 3 * (j - EntryIndex(k, 0)) == blkptr - 6
  }

  lemma MapInReach(v: Volume, vol: Image, f: File, k: nat)
    requires Readable(v, vol, f) && !f.contiguous && k < |f.maps| && |vol| == v.NBlocks()
    ensures 0 < f.maps[k] < v.NBlocks() && 0 < Shr(f.maps[k], v.clfactor) < v.NClusters()
    ensures Get24(vol[f.maps[k]], 3) == MapAt(f.maps, k + 1)
  {
    assert ReadKey(0);
    MappedBlock(v, vol, f.bmap, f.slots, f.maps, k);
    ShrBound(f.maps[k], v.clfactor);
  }

  /** The next map block is linked when there are entries left for it: the message about a null
      block number is never printed. */
  lemma NextMapLinked(v: Volume, vol: Image, f: File, j: nat, k: nat)
    requires Readable(v, vol, f) && !f.contiguous && EntryIndex(k + 1, 0) == j < |f.slots|
    ensures k + 1 < |f.maps|
  {
    assert ReadKey(0);
  }

  /** The first map block. */
  method MarkFirstMap(v: Volume, bm: array<byte>, blkno: nat, ghost f: File) returns (errs: nat, buf: nat, next: nat, blkptr: nat)
    requires v.Valid() && |v.cache.pins| < NBUFFERS && Readable(v, v.cache.logical, f) && !f.contiguous && blkno == MapAt(f.maps, 0)
    requires v.NClusters() <= 8 * bm.Length
    modifies bm, v.cache, v.cache.buffer
    ensures v.Valid() && v.cache.Kept(old(v.cache.pins)) && v.cache.logical == old(v.cache.logical)
    ensures Claimed(old(bm[..]), bm[..], FirstMapClaim(v, f.maps), errs)
    ensures WalkAt(v, f, DIRECT, 0, buf, next, blkptr, old(v.cache.pins))
  {
    errs, buf, next, blkptr := 0, 0, 0, 512;
    ClaimedNothing(bm[..]);
    if f.maps != [] { MapInReach(v, v.cache.logical, f, 0); }
    if blkno > 0 {
      buf := v.Get(blkno);
      errs := MarkCluster(bm, Shr(blkno, v.clfactor));
      var data := v.cache.Data(buf);
      next := Get24(data, 3);
      blkptr := 6;
    }
  }

  /** Release a full map block and hold the next one. */
  method HoldNextMap(v: Volume, buf: nat, next: nat, ghost f: File, ghost j: nat, ghost k: nat, ghost held: multiset<nat>)
    returns (buf': nat, next': nat)
    requires v.Valid() && |held| + 1 < NBUFFERS && Readable(v, v.cache.logical, f) && !f.contiguous && j < |f.slots|
    requires WalkAt(v, f, j, k, buf, next, 510, held) && f.maps != []
    modifies v.cache, v.cache.buffer
    ensures v.Valid() && v.cache.Kept(held) && v.cache.logical == old(v.cache.logical)
    ensures WalkAt(v, f, j, k + 1, buf', next', 6, held)
  {
    EnteredOnlyAtEnd(v, f.maps, j, k, 510);
    NextMapLinked(v, v.cache.logical, f, j, k);
    MapInReach(v, v.cache.logical, f, k + 1);
    v.cache.ReleaseBlock(buf, f.maps[k]);
    assert v.cache.Kept(held);
    buf' := v.Get(next);
    var data := v.cache.Data(buf');
    next' := Get24(data, 3);
  }

  /** A map block's cluster is marked if the block starts it. */
  method MarkMapCluster(v: Volume, bm: array<byte>, next: nat, ghost f: File, ghost j: nat) returns (errs: nat)
    requires j > DIRECT && (j - DIRECT) % PER_MAP == 0 && (j - DIRECT) / PER_MAP < |f.maps| && next == f.maps[(j - DIRECT) / PER_MAP]
    requires Shr(next, v.clfactor) < v.NClusters() <= 8 * bm.Length
    modifies bm
    ensures Claimed(old(bm[..]), bm[..], EnteredMap(v, f.maps, j), errs)
  {
    errs := 0;
    ClaimedNothing(bm[..]);
    if Low(next, v.clfactor) == 0 { errs := MarkCluster(bm, Shr(next, v.clfactor)); }
  }

  /** From a full map block on to the next one. */
  method MarkNextMap(v: Volume, bm: array<byte>, buf: nat, next: nat, ghost f: File, ghost j: nat, ghost k: nat, ghost held: multiset<nat>)
    returns (errs: nat, buf': nat, next': nat)
    requires v.Valid() && |held| + 1 < NBUFFERS && Readable(v, v.cache.logical, f) && !f.contiguous && j < |f.slots|
    requires WalkAt(v, f, j, k, buf, next, 510, held) && f.maps != [] && v.NClusters() <= 8 * bm.Length
    modifies bm, v.cache, v.cache.buffer
    ensures v.Valid() && v.cache.Kept(held) && v.cache.logical == old(v.cache.logical)
    ensures WalkAt(v, f, j, k + 1, buf', next', 6, held)
    ensures Claimed(old(bm[..]), bm[..], EnteredMap(v, f.maps, j), errs)
  {
    EnteredOnlyAtEnd(v, f.maps, j, k, 510);
    NextMapLinked(v, v.cache.logical, f, j, k);
    MapInReach(v, v.cache.logical, f, k + 1);
    buf', next' := HoldNextMap(v, buf, next, f, j, k, held);
    errs := MarkMapCluster(v, bm, next, f, j);
  }

  /** One turn of the loop over the entries of map blocks. */
  method MarkEntry(v: Volume, bm: array<byte>, buf: nat, next: nat, blkptr: nat, ghost f: File, ghost j: nat, ghost k: nat, ghost held: multiset<nat>)
    returns (errs: nat, buf': nat, next': nat, blkptr': nat, ghost k': nat)
    requires v.Valid() && |held| + 1 < NBUFFERS && Readable(v, v.cache.logical, f) && !f.contiguous && DIRECT <= j < |f.slots|
    requires WalkAt(v, f, j, k, buf, next, blkptr, held) && (k == 0 || blkptr > 6) && v.NClusters() <= 8 * bm.Length
    modifies bm, v.cache, v.cache.buffer
    ensures v.Valid() && v.cache.Kept(held) && v.cache.logical == old(v.cache.logical)
    ensures WalkAt(v, f, j + 1, k', buf', next', blkptr', held) && blkptr' > 6
    ensures Claimed(old(bm[..]), bm[..], EntryClaims(v, f.slots, f.maps, j), errs)
  {
    ghost var bm0, entered := bm[..], EnteredMap(v, f.maps, j);
    FirstPointer(v, v.cache.logical, f);
    EnteredOnlyAtEnd(v, f.maps, j, k, blkptr);
    errs, buf', next', blkptr', k' := EnterMap(v, bm, buf, next, blkptr, f, j, k, held);
    ghost var bm1 := bm[..];
    EntryAt(v, v.cache.logical, f, j, k');
    var data := v.cache.Data(buf');
    var blkno := Get24(data, blkptr');
    blkptr' := blkptr' + 3;
    var err := MarkCluster(bm, Shr(blkno, v.clfactor));
    ClaimedMore(bm0, bm1, bm[..], entered, errs, [f.slots[j]], err);
    errs := errs + err;
  }

  /** The cluster that entry j adds when its map block is entered. */
  ghost function EnteredMap(v: Volume, maps: seq<nat>, j: nat): seq<nat>
  {
    if EntersNewMap(v, maps, j) then [Shr(maps[(j - DIRECT) / PER_MAP], v.clfactor)] else []
  }

  lemma EnteredOnlyAtEnd(v: Volume, maps: seq<nat>, j: nat, k: nat, blkptr: nat)
    requires 6 <= blkptr <= 510 && 3 * (j - EntryIndex(k, 0)) == blkptr - 6 && (k == 0 || blkptr > 6)
    ensures blkptr < 510 ==> EnteredMap(v, maps, j) == []
    ensures blkptr == 510 ==> j == EntryIndex(k + 1, 0) && (j - DIRECT) / PER_MAP == k + 1 && (j - DIRECT) % PER_MAP == 0
  {
  }

  /** Go on to the next map block if the held one is used up. */
  method EnterMap(v: Volume, bm: array<byte>, buf: nat, next: nat, blkptr: nat, ghost f: File, ghost j: nat, ghost k: nat, ghost held: multiset<nat>)
    returns (errs: nat, buf': nat, next': nat, blkptr': nat, ghost k': nat)
    requires v.Valid() && |held| + 1 < NBUFFERS && Readable(v, v.cache.logical, f) && !f.contiguous && DIRECT <= j < |f.slots|
    requires WalkAt(v, f, j, k, buf, next, blkptr, held) && (k == 0 || blkptr > 6) && v.NClusters() <= 8 * bm.Length && f.maps != []
    modifies bm, v.cache, v.cache.buffer
    ensures v.Valid() && v.cache.Kept(held) && v.cache.logical == old(v.cache.logical)
    ensures WalkAt(v, f, j, k', buf', next', blkptr', held) && blkptr' < 510
    ensures Claimed(old(bm[..]), bm[..], EnteredMap(v, f.maps, j), errs)
  {
    errs, buf', next', blkptr', k' := 0, buf, next, blkptr, k;
    EnteredOnlyAtEnd(v, f.maps, j, k, blkptr);
    ClaimedNothing(bm[..]);
    if blkptr >= 510 {
      errs, buf', next' := MarkNextMap(v, bm, buf, next, f, j, k, held);
      blkptr', k' := 6, k + 1;
    }
  }

  /** Entry j lies in the map block that is held, and names data cluster j. */
  lemma EntryAt(v: Volume, vol: Image, f: File, j: nat, k: nat)
    requires Readable(v, vol, f) && !f.contiguous && DIRECT <= j < |f.slots| && |vol| == v.NBlocks()
    requires k < |f.maps| && EntryIndex(k, 0) <= j < EntryIndex(k + 1, 0)
    ensures f.maps[k] < |vol| && (j - DIRECT) / PER_MAP == k
    ensures Shr(Get24(vol[f.maps[k]], 6 + 3 * (j - EntryIndex(k, 0))), v.clfactor) == f.slots[j] < v.NClusters()
  {
    assert ReadKey(0);
    MappedBlock(v, vol, f.bmap, f.slots, f.maps, k);
    MapBlockEntry(v, vol[f.maps[k]], f.slots, f.maps, k, j - EntryIndex(k, 0));
    JoinBlock(f.slots[j], 0, v.clfactor);
  }

  lemma FirstPointer(v: Volume, vol: Image, f: File)
    requires Readable(v, vol, f) && !f.contiguous
    ensures f.bmap[5] == MapAt(f.maps, 0) && (f.maps == [] ==> |f.slots| <= DIRECT)
  {
    assert ReadKey(0);
    MappedDirect(v, vol, f.bmap, f.slots, f.maps);
  }

  /** The chain's claims before entry j have been marked. */
  ghost predicate ChainMarked(v: Volume, f: File, bm0: seq<byte>, bm: seq<byte>, j: nat, errs: nat)
  {
    Claimed(bm0, bm, ChainClaims(v, f.slots, f.maps, if j <= |f.slots| then j else |f.slots|), errs)
  }

  lemma ChainUnmarked(v: Volume, f: File, bm: seq<byte>)
    ensures ChainMarked(v, f, bm, bm, DIRECT, 0)
  {
    ClaimedNothing(bm);
  }

  /** The same turn, and what has been marked since the start. */
  method MarkTurn(v: Volume, bm: array<byte>, buf: nat, next: nat, blkptr: nat, errs0: nat, ghost f: File, ghost j: nat, ghost k: nat, ghost held: multiset<nat>, ghost bm0: seq<byte>)
    returns (errs: nat, buf': nat, next': nat, blkptr': nat, ghost k': nat)
    requires v.Valid() && |held| + 1 < NBUFFERS && Readable(v, v.cache.logical, f) && !f.contiguous && DIRECT <= j < |f.slots|
    requires WalkAt(v, f, j, k, buf, next, blkptr, held) && (k == 0 || blkptr > 6) && v.NClusters() <= 8 * bm.Length
    requires ChainMarked(v, f, bm0, bm[..], j, errs0)
    modifies bm, v.cache, v.cache.buffer
    ensures v.Valid() && v.cache.Kept(held) && v.cache.logical == old(v.cache.logical)
    ensures WalkAt(v, f, j + 1, k', buf', next', blkptr', held) && blkptr' > 6
    ensures ChainMarked(v, f, bm0, bm[..], j + 1, errs)
  {
    ghost var bm1 := bm[..];
    var err;
    err, buf', next', blkptr', k' := MarkEntry(v, bm, buf, next, blkptr, f, j, k, held);
    ClaimedMore(bm0, bm1, bm[..], ChainClaims(v, f.slots, f.maps, j), errs0, EntryClaims(v, f.slots, f.maps, j), err);
    errs := errs0 + err;
  }

  /** The entries of map blocks, after the first block has been entered. */
  method MarkEntries(v: Volume, bm: array<byte>, ncls: nat, buf0: nat, next0: nat, blkptr0: nat, ghost f: File, ghost held: multiset<nat>)
    returns (errs: nat, buf: nat, ghost k: nat)
    requires v.Valid() && |held| + 1 < NBUFFERS && Readable(v, v.cache.logical, f) && !f.contiguous
    requires WalkAt(v, f, DIRECT, 0, buf0, next0, blkptr0, held) && ncls == |f.slots| && v.NClusters() <= 8 * bm.Length
    modifies bm, v.cache, v.cache.buffer
    ensures v.Valid() && v.cache.Kept(held) && v.cache.logical == old(v.cache.logical)
    ensures if f.maps == [] then v.cache.pins == held
      else k < |f.maps| && v.cache.Owns(buf, f.maps[k]) && v.cache.pins == held + multiset{f.maps[k]}
    ensures Claimed(old(bm[..]), bm[..], ChainClaims(v, f.slots, f.maps, |f.slots|), errs)
  {
    ghost var vol, bm0 := v.cache.logical, bm[..];
    var next, blkptr := next0, blkptr0;
    errs, buf, k := 0, buf0, 0;
    ChainUnmarked(v, f, bm0);
    var j: nat := 5;
    while j < ncls
      invariant v.Valid() && v.cache.Kept(held) && v.cache.logical == vol
      invariant 5 <= j && (j <= ncls || j == 5)
      invariant WalkAt(v, f, j, k, buf, next, blkptr, held) && (k == 0 || blkptr > 6)
      invariant ChainMarked(v, f, bm0, bm[..], j, errs)
    {
      errs, buf, next, blkptr, k := MarkTurn(v, bm, buf, next, blkptr, errs, f, j, k, held, bm0);
      j := j + 1;
    }
  }

  /** if (buf) release_block(buf) */
  method ReleaseMap(v: Volume, has: bool, buf: nat, ghost f: File, ghost k: nat, ghost held: multiset<nat>)
    requires v.Valid() && has == (f.maps != [])
    requires if f.maps == [] then v.cache.pins == held
      else k < |f.maps| && v.cache.Owns(buf, f.maps[k]) && v.cache.pins == held + multiset{f.maps[k]}
    modifies v.cache, v.cache.buffer
    ensures v.Valid() && v.cache.Kept(held) && v.cache.logical == old(v.cache.logical) && v.cache.pins == held
  {
    if has { v.cache.ReleaseBlock(buf, f.maps[k]); }
  }

  /** The map blocks and their entries. */
  method MarkChain(v: Volume, bm: array<byte>, e: Inode, ncls: nat, ghost f: File) returns (errs: nat)
    requires v.Valid() && |v.cache.pins| + 1 < NBUFFERS && Readable(v, v.cache.logical, f) && !f.contiguous
    requires f.bmap == Pointers(e) && ncls == |f.slots| && v.NClusters() <= 8 * bm.Length
    modifies bm, v.cache, v.cache.buffer
    ensures v.Valid() && v.cache.Kept(old(v.cache.pins)) && v.cache.logical == old(v.cache.logical) && v.cache.pins == old(v.cache.pins)
    ensures Claimed(old(bm[..]), bm[..], FirstMapClaim(v, f.maps) + ChainClaims(v, f.slots, f.maps, |f.slots|), errs)
  {
    ghost var held, bm0 := v.cache.pins, bm[..];
    FirstPointer(v, v.cache.logical, f);
    if f.maps != [] { MapInReach(v, v.cache.logical, f, 0); }
    var buf, next, blkptr, err;
    err, buf, next, blkptr := MarkFirstMap(v, bm, Get24(e, 47), f);
    ghost var bm1, k := bm[..], 0;
    errs, buf, k := MarkEntries(v, bm, ncls, buf, next, blkptr, f, held);
    ClaimedMore(bm0, bm1, bm[..], FirstMapClaim(v, f.maps), err, ChainClaims(v, f.slots, f.maps, |f.slots|), errs);
    errs := err + errs;
    ReleaseMap(v, Get24(e, 47) > 0, buf, f, k, held);
  }

  /** The record says what the inode says. */
  ghost predicate Agrees(f: File, e: Inode)
  {
    f.contiguous == IsContiguous(e) && f.nalloc == AllocatedBlocks(e) && f.bmap == Pointers(e)
  }

  lemma RunReadable(v: Volume, vol: Image, f: File)
    requires Readable(v, vol, f) && f.contiguous
    ensures forall n: nat :: n < |f.slots| ==> f.slots[n] == Shr(f.bmap[0], v.clfactor) + n < v.NClusters()
  {
    assert ReadKey(0);
  }

  /** An inode in use: all its clusters, in the checker's order. */
  method MarkFile(v: Volume, bm: array<byte>, e: Inode, ghost f: File) returns (errs: nat)
    requires v.Valid() && |v.cache.pins| + 1 < NBUFFERS && Readable(v, v.cache.logical, f) && Agrees(f, e)
    requires v.NClusters() <= 8 * bm.Length
    modifies bm, v.cache, v.cache.buffer
    ensures v.Valid() && v.cache.Kept(old(v.cache.pins)) && v.cache.logical == old(v.cache.logical) && v.cache.pins == old(v.cache.pins)
    ensures Claimed(old(bm[..]), bm[..], FileClaims(v, f), errs)
  {
    var nalloc := AllocatedBlocks(e);
    var ncls := Shr(nalloc, v.clfactor);
    if Low(nalloc, v.clfactor) != 0 { ncls := ncls + 1; }
    if IsContiguous(e) {
      RunReadable(v, v.cache.logical, f);
      errs := MarkRun(bm, Shr(Pointer(e, 0), v.clfactor), ncls, f.slots);
      assert v.cache.Kept(old(v.cache.pins));
    } else {
      ghost var bm0, a, b := bm[..], Front(f.slots, DIRECT), FirstMapClaim(v, f.maps) + ChainClaims(v, f.slots, f.maps, |f.slots|);
      errs := MarkDirect(v, bm, e, v.cache.logical, f);
      ghost var bm1 := bm[..];
      assert v.cache.Kept(old(v.cache.pins));
      var err := MarkChain(v, bm, e, ncls, f);
      ClaimedMore(bm0, bm1, bm[..], a, errs, b, err);
      assert a + b == FileClaims(v, f);
      errs := errs + err;
    }
  }

  // ---------------------------------------------------------------
  // All inodes
  // ---------------------------------------------------------------

  ghost function InodeClaims(v: Volume, files: map<nat, File>, n: nat): seq<nat>
  {
    if n in files then FileClaims(v, files[n]) else []
  }

  /** The claims of inodes 1 to n. */
  ghost function IndexClaims(v: Volume, files: map<nat, File>, n: nat): seq<nat>
  {
    if n == 0 then [] else IndexClaims(v, files, n - 1) + InodeClaims(v, files, n)
  }

  /** Inodes 1 to n describe exactly these files. */
  ghost predicate IndexIs(v: Volume, vol: Image, files: map<nat, File>, n: nat)
  {
    && n < 0x1_0000 && (n > 0 ==> InodeBlock(v, n) < |vol|)
    && forall key {:trigger MarkKey(key)} :: Folded(key) ==>
    forall i: nat {:trigger i in files} :: 1 <= i <= n && InodeBlock(v, i) < |vol| ==>
      && (i in files <==> LinkCount(InodeAt(v, vol, i)) > 0)
      && (i in files ==> Agrees(files[i], InodeAt(v, vol, i)) && Readable(v, vol, files[i]))
  }

  lemma IndexEntry(v: Volume, vol: Image, files: map<nat, File>, n: nat, i: nat)
    requires IndexIs(v, vol, files, n) && 1 <= i <= n
    ensures InodeBlock(v, i) < |vol| && (i in files <==> LinkCount(InodeAt(v, vol, i)) > 0)
    ensures i in files ==> Agrees(files[i], InodeAt(v, vol, i)) && Readable(v, vol, files[i])
  {
    assert MarkKey(0);
    assert Slot(i) <= Slot(n);
  }

  method MarkInode(v: Volume, bm: array<byte>, i: nat, ghost files: map<nat, File>, ghost inodes: nat) returns (err: nat)
    requires v.Valid() && |v.cache.pins| + 1 < NBUFFERS && IndexIs(v, v.cache.logical, files, inodes) && 1 <= i <= inodes
    requires v.NClusters() <= 8 * bm.Length
    modifies bm, v.cache, v.cache.buffer
    ensures v.Valid() && v.cache.Kept(old(v.cache.pins)) && v.cache.logical == old(v.cache.logical) && v.cache.pins == old(v.cache.pins)
    ensures Claimed(old(bm[..]), bm[..], InodeClaims(v, files, i), err)
  {
    IndexEntry(v, v.cache.logical, files, inodes, i);
    ClaimedNothing(bm[..]);
    var e := ReadInode(v, i);
    err := 0;
    if LinkCount(e) > 0 { err := MarkFile(v, bm, e, files[i]); }
  }

  /** The first loop of check_alloc_map: exactly the clusters that live inodes lay claim to are
      marked, and errs counts the claims to a cluster already marked. */
  method MarkIndex(v: Volume, bm: array<byte>, inodes: nat, ghost files: map<nat, File>) returns (errs: nat)
    requires v.Valid() && |v.cache.pins| + 1 < NBUFFERS && IndexIs(v, v.cache.logical, files, inodes)
    requires v.NClusters() <= 8 * bm.Length
    modifies bm, v.cache, v.cache.buffer
    ensures v.Valid() && v.cache.Kept(old(v.cache.pins)) && v.cache.logical == old(v.cache.logical) && v.cache.pins == old(v.cache.pins)
    ensures Claimed(old(bm[..]), bm[..], IndexClaims(v, files, inodes), errs)
  {
    ghost var bm0 := bm[..];
    ClaimedNothing(bm0);
    errs := 0;
    var i := 0;
    while i < inodes
      invariant v.Valid() && v.cache.Kept(old(v.cache.pins)) && v.cache.logical == old(v.cache.logical) && v.cache.pins == old(v.cache.pins)
      invariant i <= inodes && Claimed(bm0, bm[..], IndexClaims(v, files, i), errs)
    {
      ghost var bm1 := bm[..];
      var err := MarkInode(v, bm, i + 1, files, inodes);
      ClaimedMore(bm0, bm1, bm[..], IndexClaims(v, files, i), errs, InodeClaims(v, files, i + 1), err);
      errs := errs + err;
      i := i + 1;
    }
  }
}
