/** File control blocks and file_extend of fileio.c. */
module FileExtension {
  import opened Bytes
  import opened BufferCache
  import opened Volumes
  import opened Allocation
  import opened FileMap
  import opened FileGrowth
  import opened Footprint

  /** struct FCBheader: what all openings of one file share.  slots and maps name the data
      clusters and the map blocks that the pointers lead to. */
  class FcbHeader {
    const inode: nat
    const contiguous: bool
    var nalloc: nat
    var nused: nat
    var lbcount: nat
    var bmap: seq<nat>
    ghost var slots: seq<nat>
    ghost var maps: seq<nat>

    constructor (inode: nat, contiguous: bool, nalloc: nat, nused: nat, lbcount: nat, bmap: seq<nat>,
                 ghost slots: seq<nat>, ghost maps: seq<nat>)
      ensures this.inode == inode && this.contiguous == contiguous && this.nalloc == nalloc && this.nused == nused
      ensures this.lbcount == lbcount && this.bmap == bmap && this.slots == slots && this.maps == maps
    {
      this.inode, this.contiguous := inode, contiguous;
      this.nalloc, this.nused, this.lbcount, this.bmap := nalloc, nused, lbcount, bmap;
      this.slots, this.maps := slots, maps;
    }
  }

  /** struct FCB: one opening of a file, with its position. */
  class Fcb {
    const header: FcbHeader
    var curalloc: nat
    var curblk: nat
    var byteptr: nat

    constructor (header: FcbHeader)
      ensures this.header == header && curalloc == 0 && curblk == 0 && byteptr == 0
    {
      this.header := header;
      curalloc, curblk, byteptr := 0, 0, 0;
    }
  }

  /** The block whose access is never given back when a scan finds the disk full. */
  function LeakedBlock(v: Volume): nat
  {
    v.bmblock + BitBlock(v.NBlocks())
  }

  /** h is a non-contiguous file whose pointers are all in place. */
  ghost predicate ChainedFile(v: Volume, h: FcbHeader)
    reads h, v.cache
  {
    && !h.contiguous
    && Chained(v, v.cache.logical, h.bmap, h.slots, h.maps)
    && |h.slots| == Clusters(h.nalloc, v.clfactor)
  }

  /** How the file and the volume changed since the old state. */
  twostate predicate FileGrew(v: Volume, h: FcbHeader)
    reads h, v.cache
  {
    Grew(v, old(v.cache.logical), old(h.slots), old(h.maps), v.cache.logical, h.slots, h.maps)
  }

  /** For every new slot one cluster more is recorded as allocated. */
  twostate predicate Recorded(v: Volume, h: FcbHeader)
    reads h
  {
    h.nalloc + Shl(old(|h.slots|), v.clfactor) == old(h.nalloc) + Shl(|h.slots|, v.clfactor)
  }

  // ---------------------------------------------------------------
  // The allocations inside file_extend
  // ---------------------------------------------------------------

  /** bmap[i] == 0: allocate a direct cluster. */
  method FillDirect(v: Volume, h: FcbHeader, i: nat) returns (err: bool)
    requires v.Valid() && ChainedFile(v, h) && |v.cache.pins| < NBUFFERS
    requires i == |h.slots| < DIRECT && h.maps == []
    requires v.clfactor == 0 || HasFree(v, v.cache.logical, 1)
    modifies v.cache, v.cache.buffer, h`bmap, h`nalloc, h`slots
    ensures v.Valid() && v.cache.Kept(old(v.cache.pins))
    ensures ChainedFile(v, h) && FileGrew(v, h) && Recorded(v, h)
    ensures err ==> Full(v, v.cache.logical) && v.clfactor == 0 && h.slots == old(h.slots)
    ensures !err ==> |h.slots| == i + 1
    ensures v.cache.pins == if err then old(v.cache.pins) + multiset{LeakedBlock(v)} else old(v.cache.pins)
  {
    ghost var vol, bmap, slots := v.cache.logical, h.bmap, h.slots;
    var lbn := TakeCluster(v);
    if lbn == 0 {
      GrewNothing(v, vol, slots, h.maps);
      return true;
    }
    DirectStep(v, vol, v.cache.logical, bmap, slots, lbn);
    OneMoreCluster(h.nalloc, v.clfactor);
    ShlSucc(|h.slots|, v.clfactor);
    h.bmap := h.bmap[i := lbn];
    h.nalloc := h.nalloc + Size(v.clfactor);
    h.slots := h.slots + [Shr(lbn, v.clfactor)];
    return false;
  }

  /** new_block(lbn) with its prev link set. */
  method WriteNewMap(v: Volume, lbn: nat, prev: nat) returns (buf: nat)
    requires v.Valid() && lbn < v.NBlocks() && |v.cache.pins| < NBUFFERS
    modifies v.cache, v.cache.buffer
    ensures v.Valid() && v.cache.Kept(old(v.cache.pins))
    ensures v.cache.logical == old(v.cache.logical)[lbn := NewMapBlock(prev)]
    ensures v.cache.pins == old(v.cache.pins) + multiset{lbn} && v.cache.Owns(buf, lbn)
  {
    buf := v.GetNew(lbn);
    var data := v.cache.Data(buf);
    v.cache.Store(buf, lbn, Set24(data, 0, prev));
  }

  /** bmap[5] == 0: allocate the first map block and hold it. */
  method AddFirstMap(v: Volume, fcb: Fcb) returns (err: bool, buf: nat)
    requires v.Valid() && ChainedFile(v, fcb.header) && |v.cache.pins| < NBUFFERS
    requires |fcb.header.slots| == DIRECT && fcb.header.maps == []
    requires v.clfactor == 0 || HasFree(v, v.cache.logical, 1)
    modifies v.cache, v.cache.buffer, fcb`curalloc, fcb.header`bmap, fcb.header`maps
    ensures v.Valid() && v.cache.Kept(old(v.cache.pins))
    ensures ChainedFile(v, fcb.header) && FileGrew(v, fcb.header)
    ensures err ==> Full(v, v.cache.logical) && v.clfactor == 0 && fcb.header.maps == []
    ensures err ==> v.cache.pins == old(v.cache.pins) + multiset{LeakedBlock(v)}
    ensures !err ==> |fcb.header.maps| == 1 && fcb.curalloc == fcb.header.maps[0] && MapsGrown([], fcb.header.maps, v.clfactor)
    ensures !err ==> v.cache.Owns(buf, fcb.curalloc) && v.cache.pins == old(v.cache.pins) + multiset{fcb.curalloc}
    ensures |Used(v, v.cache.logical)| <= |Used(v, old(v.cache.logical))| + 1
  {
    var h := fcb.header;
    ghost var vol, bmap := v.cache.logical, h.bmap;
    var lbn := TakeCluster(v);
    if lbn == 0 {
      GrewNothing(v, vol, h.slots, h.maps);
      return true, 0;
    }
    FirstMapStep(v, vol, v.cache.logical, bmap, h.slots, lbn);
    TookInVolume(v, vol, v.cache.logical, lbn);
    WriteKeepsBits(v, v.cache.logical, lbn, NewMapBlock(0));
    buf := WriteNewMap(v, lbn, 0);
    h.bmap := h.bmap[5 := lbn];
    fcb.curalloc := lbn;
    h.maps := [lbn];
    assert [] + [lbn] == [lbn];
    err := false;
  }

  /** Entry s of map block k is 0: allocate a cluster for it. */
  method FillEntry(v: Volume, h: FcbHeader, buf: nat, blkptr: nat, ghost k: nat, ghost s: nat) returns (err: bool)
    requires v.Valid() && ChainedFile(v, h) && |v.cache.pins| < NBUFFERS
    requires k < |h.maps| && s < PER_MAP && |h.slots| == EntryIndex(k, s) && blkptr == 6 + 3 * s
    requires v.cache.Owns(buf, h.maps[k])
    requires v.clfactor == 0 || HasFree(v, v.cache.logical, 1)
    modifies v.cache, v.cache.buffer, h`nalloc, h`slots
    ensures v.Valid() && v.cache.Kept(old(v.cache.pins))
    ensures ChainedFile(v, h) && FileGrew(v, h) && Recorded(v, h)
    ensures err ==> Full(v, v.cache.logical) && v.clfactor == 0 && h.slots == old(h.slots)
    ensures !err ==> |h.slots| == old(|h.slots|) + 1
    ensures v.cache.pins == if err then old(v.cache.pins) + multiset{LeakedBlock(v)} else old(v.cache.pins)
    ensures |Used(v, v.cache.logical)| <= |Used(v, old(v.cache.logical))| + 1
  {
    ghost var vol, slots := v.cache.logical, h.slots;
    var lbn := TakeCluster(v);
    if lbn == 0 {
      GrewNothing(v, vol, slots, h.maps);
      return true;
    }
    SlotStep(v, vol, v.cache.logical, h.bmap, slots, h.maps, k, s, lbn);
    OneMoreCluster(h.nalloc, v.clfactor);
    ShlSucc(|h.slots|, v.clfactor);
    MapInFileArea(v, vol, h.bmap, slots, h.maps, k);
    TookInVolume(v, vol, v.cache.logical, lbn);
    ghost var vol1 := v.cache.logical;
    var data := v.cache.Data(buf);
    v.cache.Store(buf, h.maps[k], Set24(data, blkptr, lbn));
    WriteKeepsBits(v, vol1, h.maps[k], Set24(data, blkptr, lbn));
    h.nalloc := h.nalloc + Size(v.clfactor);
    h.slots := h.slots + [Shr(lbn, v.clfactor)];
    return false;
  }

  /** Map block "last" is full and has no successor: put one into the same cluster or into a
      new one, link both ways, and hold it instead.  When the disk is full the held block is
      released. */
  method LinkNextMap(v: Volume, fcb: Fcb, buf: nat, ghost held: multiset<nat>) returns (err: bool, next: nat)
    requires v.Valid() && ChainedFile(v, fcb.header) && |held| + 2 <= NBUFFERS
    requires |fcb.header.maps| > 0 && |fcb.header.slots| == EntryIndex(|fcb.header.maps|, 0)
    requires fcb.curalloc == fcb.header.maps[|fcb.header.maps| - 1]
    requires v.cache.Owns(buf, fcb.curalloc) && v.cache.pins == held + multiset{fcb.curalloc}
    requires v.clfactor == 0 || Low(fcb.curalloc, v.clfactor) != Size(v.clfactor) - 1 || HasFree(v, v.cache.logical, 1)
    modifies v.cache, v.cache.buffer, fcb`curalloc, fcb.header`maps
    ensures v.Valid() && v.cache.Kept(held)
    ensures ChainedFile(v, fcb.header) && FileGrew(v, fcb.header)
    ensures err ==> Full(v, v.cache.logical) && v.clfactor == 0 && fcb.header.maps == old(fcb.header.maps)
    ensures err ==> v.cache.pins == held + multiset{LeakedBlock(v)}
    ensures MapsGrown(old(fcb.header.maps), fcb.header.maps, v.clfactor)
    ensures !err ==> |fcb.header.maps| == old(|fcb.header.maps|) + 1 && fcb.curalloc == fcb.header.maps[|fcb.header.maps| - 1]
    ensures !err ==> v.cache.Owns(next, fcb.curalloc) && v.cache.pins == held + multiset{fcb.curalloc}
  {
    var h, prev := fcb.header, fcb.curalloc;
    var lbn := TakeNextMap(v, h, prev);
    if lbn == 0 {
      GrewNothing(v, v.cache.logical, h.slots, h.maps);
      v.cache.ReleaseBlock(buf, prev);
      return true, 0;
    }
    next := LinkAndHold(v, buf, prev, lbn, held);
    fcb.curalloc := lbn;
    h.maps := h.maps + [lbn];
    err := false;
  }

  /** The block for the next map block, and what linking it will make of the file. */
  method TakeNextMap(v: Volume, h: FcbHeader, prev: nat) returns (lbn: nat)
    requires v.Valid() && ChainedFile(v, h) && |v.cache.pins| < NBUFFERS
    requires |h.maps| > 0 && |h.slots| == EntryIndex(|h.maps|, 0) && prev == h.maps[|h.maps| - 1]
    requires v.clfactor == 0 || Low(prev, v.clfactor) != Size(v.clfactor) - 1 || HasFree(v, v.cache.logical, 1)
    modifies v.cache, v.cache.buffer
    ensures v.Valid() && v.cache.Kept(old(v.cache.pins))
    ensures lbn == 0 ==> Full(v, v.cache.logical) && v.clfactor == 0 && v.cache.logical == old(v.cache.logical)
    ensures v.cache.pins == if lbn == 0 then old(v.cache.pins) + multiset{LeakedBlock(v)} else old(v.cache.pins)
    ensures lbn > 0 ==> prev < |v.cache.logical| && lbn < |v.cache.logical| && NextMap(h.maps, lbn, v.clfactor)
    ensures lbn > 0 ==>
      var vol2 := v.cache.logical[prev := Set24(v.cache.logical[prev], 3, lbn)][lbn := NewMapBlock(prev)];
      Chained(v, vol2, h.bmap, h.slots, h.maps + [lbn]) && Grew(v, old(v.cache.logical), h.slots, h.maps, vol2, h.slots, h.maps + [lbn])
  {
    ghost var vol := v.cache.logical;
    ghost var newCluster;
    lbn, newCluster := ChooseNextMap(v, prev);
    if lbn > 0 {
      NextMapStep(v, vol, v.cache.logical, h.bmap, h.slots, h.maps, lbn, newCluster);
      if newCluster { TookInVolume(v, vol, v.cache.logical, lbn); }
    }
  }

  /** The block after prev while prev's cluster has room, else the first of a new cluster. */
  method ChooseNextMap(v: Volume, prev: nat) returns (lbn: nat, ghost newCluster: bool)
    requires v.Valid() && |v.cache.pins| < NBUFFERS && SystemArea(v, v.cache.logical)
    requires v.clfactor == 0 || Low(prev, v.clfactor) != Size(v.clfactor) - 1 || HasFree(v, v.cache.logical, 1)
    modifies v.cache, v.cache.buffer
    ensures v.Valid() && v.cache.Kept(old(v.cache.pins))
    ensures lbn > 0 ==> (newCluster <==> Low(prev, v.clfactor) == Size(v.clfactor) - 1)
    ensures lbn == 0 ==> Full(v, v.cache.logical) && v.clfactor == 0 && v.cache.logical == old(v.cache.logical)
    ensures lbn > 0 ==> if newCluster then TookCluster(v, old(v.cache.logical), v.cache.logical, lbn)
      else v.cache.logical == old(v.cache.logical) && lbn == prev + 1 && Low(prev, v.clfactor) != Size(v.clfactor) - 1
    ensures v.cache.pins == if lbn == 0 then old(v.cache.pins) + multiset{LeakedBlock(v)} else old(v.cache.pins)
  {
    if Low(prev, v.clfactor) != Size(v.clfactor) - 1 {
      lbn, newCluster := prev + 1, false;
    } else {
      lbn := TakeCluster(v);
      newCluster := true;
    }
  }

  /** Set the next link on the held block, release it, and create its successor. */
  method LinkAndHold(v: Volume, buf: nat, prev: nat, lbn: nat, ghost held: multiset<nat>) returns (next: nat)
    requires v.Valid() && v.cache.Owns(buf, prev) && lbn < v.NBlocks()
    requires v.cache.pins == held + multiset{prev} && |held| < NBUFFERS
    modifies v.cache, v.cache.buffer
    ensures v.Valid() && v.cache.Kept(held)
    ensures prev < v.NBlocks()
    ensures v.cache.logical == old(v.cache.logical)[prev := Set24(old(v.cache.logical)[prev], 3, lbn)][lbn := NewMapBlock(prev)]
    ensures v.cache.pins == held + multiset{lbn} && v.cache.Owns(next, lbn)
  {
    var data := v.cache.Data(buf);
    v.cache.Store(buf, prev, Set24(data, 3, lbn));
    v.cache.ReleaseBlock(buf, prev);
    next := WriteNewMap(v, lbn, prev);
  }

  // ---------------------------------------------------------------
  // One step of the fill loop
  // ---------------------------------------------------------------

  /** Every cluster of the file has an entry. */
  ghost predicate WithinMaps(h: FcbHeader)
    reads h
  {
    |h.slots| <= EntryIndex(|h.maps|, 0)
  }

  /** The fill loop stands at entry s of map block k, which it holds. */
  ghost predicate FillingAt(v: Volume, fcb: Fcb, buf: nat, blkptr: nat, k: nat, s: nat, held: multiset<nat>)
    reads fcb, fcb.header, v.cache, v.cache.buffer
  {
    && k < |fcb.header.maps| && s < PER_MAP && blkptr == 6 + 3 * s
    && EntryIndex(k, s) <= |fcb.header.slots| && WithinMaps(fcb.header)
    && fcb.curalloc == fcb.header.maps[k]
    && v.cache.Owns(buf, fcb.curalloc) && v.cache.pins == held + multiset{fcb.curalloc}
  }

  /** blkptr += 3, moving on to the next map block, which is created when missing. */
  method NextEntry(v: Volume, fcb: Fcb, buf: nat, blkptr: nat, ghost k: nat, ghost s: nat, ghost held: multiset<nat>)
    returns (err: bool, buf': nat, blkptr': nat)
    requires v.Valid() && ChainedFile(v, fcb.header) && |held| + 2 <= NBUFFERS
    requires FillingAt(v, fcb, buf, blkptr, k, s, held) && EntryIndex(k, s) < |fcb.header.slots|
    requires v.clfactor == 0 || s < PER_MAP - 1 || k + 1 < |fcb.header.maps| || Low(fcb.curalloc, v.clfactor) != Size(v.clfactor) - 1 || HasFree(v, v.cache.logical, 1)
    modifies v.cache, v.cache.buffer, fcb`curalloc, fcb.header`maps
    ensures v.Valid() && v.cache.Kept(held)
    ensures ChainedFile(v, fcb.header) && FileGrew(v, fcb.header)
    ensures err ==> Full(v, v.cache.logical) && v.clfactor == 0 && fcb.header.maps == old(fcb.header.maps)
    ensures MapsGrown(old(fcb.header.maps), fcb.header.maps, v.clfactor)
    ensures err ==> s == PER_MAP - 1 && k + 1 == |fcb.header.maps| && v.cache.pins == held + multiset{LeakedBlock(v)}
    ensures !err ==> var k', s' := if s < PER_MAP - 1 then k else k + 1, if s < PER_MAP - 1 then s + 1 else 0;
      && FillingAt(v, fcb, buf', blkptr', k', s', held)
      && |fcb.header.maps| == if k' < old(|fcb.header.maps|) then old(|fcb.header.maps|) else k' + 1
    ensures s < PER_MAP - 1 ==> !err && v.cache.logical == old(v.cache.logical) && fcb.header.maps == old(fcb.header.maps)
  {
    GrewNothing(v, v.cache.logical, fcb.header.slots, fcb.header.maps);
    err, buf', blkptr' := false, buf, blkptr + 3;
    if blkptr' >= 510 {
      blkptr' := 6;
      MappedLinks(v, v.cache.logical, fcb.header.bmap, fcb.header.slots, fcb.header.maps, k);
      var data := v.cache.Data(buf);
      var next := Get24(data, 3);
      if next == 0 {
        err, buf' := LinkNextMap(v, fcb, buf, held);
      } else {
        v.cache.ReleaseBlock(buf, fcb.curalloc);
        buf' := v.Get(next);
        fcb.curalloc := next;
      }
    }
  }

  /** The links of map block k lead to its neighbours, and 0 marks the end of the chain. */
  lemma MappedLinks(v: Volume, vol: Image, bmap: seq<nat>, slots: seq<nat>, maps: seq<nat>, k: nat)
    requires Chained(v, vol, bmap, slots, maps) && k < |maps|
    ensures maps[k] < |vol| && Get24(vol[maps[k]], 3) == MapAt(maps, k + 1)
    ensures k + 1 < |maps| ==> 0 < maps[k + 1] < |vol|
  {
    assert ChainKey(0);
    MappedBlock(v, vol, bmap, slots, maps, k);
    if k + 1 < |maps| { MapInFileArea(v, vol, bmap, slots, maps, k + 1); }
  }

  lemma ChainedOwned(v: Volume, vol: Image, bmap: seq<nat>, slots: seq<nat>, maps: seq<nat>)
    requires Chained(v, vol, bmap, slots, maps)
    ensures Owned(v, slots, maps) <= Used(v, vol)
  {
    assert ChainKey(0);
  }

  /** Entry s is 0 exactly when the file has no such cluster yet. */
  lemma EntryIsZero(v: Volume, vol: Image, bmap: seq<nat>, slots: seq<nat>, maps: seq<nat>, k: nat, s: nat)
    requires Chained(v, vol, bmap, slots, maps) && k < |maps| && s < PER_MAP
    ensures maps[k] < |vol|
    ensures Get24(vol[maps[k]], 6 + 3 * s) == 0 <==> |slots| <= EntryIndex(k, s)
  {
    assert ChainKey(0);
    assert PlaceKey(0);
    MappedBlock(v, vol, bmap, slots, maps, k);
    MapBlockEntry(v, vol[maps[k]], slots, maps, k, s);
    assert BitsKey(0);
    if EntryIndex(k, s) < |slots| { ShlBounds(slots[EntryIndex(k, s)], v.clfactor); }
  }

  /** Clusters that entry s of map block k, and the next map block behind it, may take. */
  ghost function FillCost(h: FcbHeader, k: nat, s: nat, cf: nat): nat
    reads h
  {
    (if |h.slots| <= EntryIndex(k, s) then 1 else 0)
    + if s == PER_MAP - 1 && k + 1 == |h.maps| && LowOf(h.maps, cf) == Size(cf) - 1 then 1 else 0
  }

  /** Entry s could not be filled, or it was, but there is no map block for the next one. */
  ghost predicate StepFailed(h: FcbHeader, k: nat, s: nat, slots0: seq<nat>)
    reads h
  {
    if h.slots == slots0 then
      |slots0| == EntryIndex(k, s) || |slots0| == EntryIndex(|h.maps|, 0) == EntryIndex(k, s) + 1
    else
      |slots0| == EntryIndex(k, s) && |h.slots| == EntryIndex(|h.maps|, 0) == EntryIndex(k, s) + 1
  }

  /** Entry s is filled, and there is a map block for the next one. */
  ghost predicate StepFilled(h: FcbHeader, k: nat, s: nat, slots0: nat, maps0: nat)
    reads h
  {
    var last := if s < PER_MAP - 1 then k else k + 1;
    && |h.maps| == (if last < maps0 then maps0 else last + 1)
    && |h.slots| == (if EntryIndex(k, s) < slots0 then slots0 else EntryIndex(k, s) + 1)
  }

  /** One turn of the fill loop: make sure entry s has a cluster, then step to the next entry. */
  method FillStep(v: Volume, fcb: Fcb, buf: nat, blkptr: nat, ghost k: nat, ghost s: nat, ghost held: multiset<nat>)
    returns (err: bool, buf': nat, blkptr': nat)
    requires v.Valid() && ChainedFile(v, fcb.header) && |held| + 2 <= NBUFFERS
    requires FillingAt(v, fcb, buf, blkptr, k, s, held)
    requires v.clfactor == 0 || HasFree(v, v.cache.logical, FillCost(fcb.header, k, s, v.clfactor))
    modifies v.cache, v.cache.buffer, fcb`curalloc, fcb.header`maps, fcb.header`nalloc, fcb.header`slots
    ensures v.Valid() && v.cache.Kept(held)
    ensures ChainedFile(v, fcb.header) && FileGrew(v, fcb.header) && Recorded(v, fcb.header)
    ensures err ==> Full(v, v.cache.logical) && v.clfactor == 0 && fcb.header.maps == old(fcb.header.maps)
    ensures err ==> v.cache.pins == held + multiset{LeakedBlock(v)}
    ensures MapsGrown(old(fcb.header.maps), fcb.header.maps, v.clfactor)
    ensures err ==> StepFailed(fcb.header, k, s, old(fcb.header.slots))
    ensures !err ==> var k', s' := if s < PER_MAP - 1 then k else k + 1, if s < PER_MAP - 1 then s + 1 else 0; FillingAt(v, fcb, buf', blkptr', k', s', held)
    ensures !err ==> StepFilled(fcb.header, k, s, |old(fcb.header.slots)|, |old(fcb.header.maps)|)
    ensures EntryIndex(k, s) < old(|fcb.header.slots|) && s < PER_MAP - 1 ==>
      !err && v.cache.logical == old(v.cache.logical) && fcb.header.maps == old(fcb.header.maps) && fcb.header.slots == old(fcb.header.slots) && fcb.header.nalloc == old(fcb.header.nalloc)
  {
    ghost var vol, slots, maps := v.cache.logical, fcb.header.slots, fcb.header.maps;
    buf', blkptr' := buf, blkptr;
    err := FillOne(v, fcb, buf, blkptr, k, s, held);
    if err { return; }
    ghost var vol1, slots1 := v.cache.logical, fcb.header.slots;
    err, buf', blkptr' := NextEntry(v, fcb, buf, blkptr, k, s, held);
    GrewTransitive(v, vol, slots, maps, vol1, slots1, maps, v.cache.logical, fcb.header.slots, fcb.header.maps);
  }

  /** Entry s of the held map block gets a cluster unless it has one. */
  method FillOne(v: Volume, fcb: Fcb, buf: nat, blkptr: nat, ghost k: nat, ghost s: nat, ghost held: multiset<nat>) returns (err: bool)
    requires v.Valid() && ChainedFile(v, fcb.header) && |held| + 2 <= NBUFFERS
    requires FillingAt(v, fcb, buf, blkptr, k, s, held)
    requires v.clfactor == 0 || EntryIndex(k, s) < |fcb.header.slots| || HasFree(v, v.cache.logical, 1)
    modifies v.cache, v.cache.buffer, fcb.header`nalloc, fcb.header`slots
    ensures v.Valid() && v.cache.Kept(held)
    ensures ChainedFile(v, fcb.header) && FileGrew(v, fcb.header) && Recorded(v, fcb.header) && Owned(v, fcb.header.slots, fcb.header.maps) <= Used(v, v.cache.logical)
    ensures err ==> Full(v, v.cache.logical) && v.clfactor == 0 && v.cache.pins == held + multiset{LeakedBlock(v)}
    ensures err ==> old(|fcb.header.slots|) == EntryIndex(k, s) && fcb.header.slots == old(fcb.header.slots)
    ensures !err ==> FillingAt(v, fcb, buf, blkptr, k, s, held) && EntryIndex(k, s) < |fcb.header.slots|
    ensures if EntryIndex(k, s) < old(|fcb.header.slots|) then
        !err && v.cache.logical == old(v.cache.logical) && fcb.header.slots == old(fcb.header.slots)
      else
        |Used(v, v.cache.logical)| <= |Used(v, old(v.cache.logical))| + 1 && |fcb.header.slots| <= EntryIndex(k, s) + 1
  {
    var h := fcb.header;
    ghost var vol, slots, maps := v.cache.logical, h.slots, h.maps;
    EntryIsZero(v, vol, h.bmap, slots, maps, k, s);
    var data := v.cache.Data(buf);
    var lbn := Get24(data, blkptr);
    GrewNothing(v, vol, slots, maps);
    err := false;
    if lbn == 0 {
      err := FillEntry(v, h, buf, blkptr, k, s);
      if err { v.cache.ReleaseBlock(buf, fcb.curalloc); }
    }
    ChainedOwned(v, v.cache.logical, h.bmap, h.slots, h.maps);
  }

  // ---------------------------------------------------------------
  // file_extend
  // ---------------------------------------------------------------

  /** A contiguous file: one run of clusters from the first pointer on. */
  ghost predicate OneRun(v: Volume, vol: Image, nalloc: nat, bmap: seq<nat>, slots: seq<nat>, maps: seq<nat>)
    requires |bmap| == 6
  {
    && maps == []
    && SystemArea(v, vol)
    && Placed(v, slots, maps)
    && Owned(v, slots, maps) <= Used(v, vol)
    && |slots| == Clusters(nalloc, v.clfactor)
    && (forall n: nat :: n < |slots| ==> slots[n] == Shr(bmap[0], v.clfactor) + n)
    && (|slots| > 0 ==> Low(bmap[0], v.clfactor) == 0)
  }

  ghost predicate FileKey(k: int)
  {
    true
  }

  /** The state of an open file between operations, field by field. */
  ghost predicate FileState(v: Volume, vol: Image, contiguous: bool, nalloc: nat, nused: nat, bmap: seq<nat>, slots: seq<nat>, maps: seq<nat>)
  {
    && |bmap| == 6
    && forall key {:trigger FileKey(key)} :: Folded(key) ==>
    if contiguous then
      OneRun(v, vol, nalloc, bmap, slots, maps) && nused <= nalloc
    else
      Chained(v, vol, bmap, slots, maps) && |slots| == Clusters(nalloc, v.clfactor) && Counts(v, nused, |slots|, |maps|)
  }

  ghost predicate FileOk(v: Volume, h: FcbHeader)
    reads h, v.cache
  {
    h.lbcount <= 512 && FileState(v, v.cache.logical, h.contiguous, h.nalloc, h.nused, h.bmap, h.slots, h.maps)
  }

  /** The chain walk: hold the map block with the entry of cluster 5 + vcn.  The early exit at
      the end of the chain is never taken. */
  method WalkChain(v: Volume, fcb: Fcb, vcn: nat) returns (buf: nat, rest: nat)
    requires v.Valid() && ChainedFile(v, fcb.header) && |v.cache.pins| + 1 <= NBUFFERS
    requires vcn / PER_MAP < |fcb.header.maps|
    modifies v.cache, v.cache.buffer, fcb`curalloc
    ensures v.Valid() && v.cache.Kept(old(v.cache.pins))
    ensures v.cache.logical == old(v.cache.logical)
    ensures rest == vcn % PER_MAP && fcb.curalloc == fcb.header.maps[vcn / PER_MAP]
    ensures v.cache.Owns(buf, fcb.curalloc) && v.cache.pins == old(v.cache.pins) + multiset{fcb.curalloc}
  {
    var h := fcb.header;
    ghost var vol, pins := v.cache.logical, v.cache.pins;
    FirstMapPointer(v, vol, h.bmap, h.slots, h.maps);
    var curalloc := h.bmap[5];
    buf := v.Get(curalloc);
    rest := vcn;
    ghost var k := 0;
    while rest >= PER_MAP
      invariant v.Valid() && v.cache.Kept(pins) && v.cache.logical == vol
      invariant rest + PER_MAP * k == vcn && k <= vcn / PER_MAP
      invariant curalloc == h.maps[k]
      invariant v.cache.Owns(buf, curalloc) && v.cache.pins == pins + multiset{curalloc}
    {
      assert k + 1 <= vcn / PER_MAP;
      buf, curalloc := ChainStep(v, h, buf, curalloc, k, pins);
      rest := rest - PER_MAP;
      k := k + 1;
    }
    assert k == vcn / PER_MAP;
    fcb.curalloc := curalloc;
  }

  /** From map block k to the next one. */
  method ChainStep(v: Volume, h: FcbHeader, buf: nat, curalloc: nat, ghost k: nat, ghost pins: multiset<nat>) returns (buf': nat, next: nat)
    requires v.Valid() && v.cache.Owns(buf, curalloc) && v.cache.pins == pins + multiset{curalloc} && |pins| + 1 <= NBUFFERS
    requires Chained(v, v.cache.logical, h.bmap, h.slots, h.maps) && k + 1 < |h.maps| && curalloc == h.maps[k]
    modifies v.cache, v.cache.buffer
    ensures v.Valid() && v.cache.Kept(pins) && v.cache.logical == old(v.cache.logical)
    ensures next == h.maps[k + 1] && v.cache.Owns(buf', next) && v.cache.pins == pins + multiset{next}
  {
    MappedLinks(v, v.cache.logical, h.bmap, h.slots, h.maps, k);
    var data := v.cache.Data(buf);
    next := Get24(data, 3);
    v.cache.ReleaseBlock(buf, curalloc);
    buf' := v.Get(next);
  }

  lemma FirstMapPointer(v: Volume, vol: Image, bmap: seq<nat>, slots: seq<nat>, maps: seq<nat>)
    requires Chained(v, vol, bmap, slots, maps)
    ensures bmap[5] == MapAt(maps, 0)
    ensures |maps| > 0 ==> 0 < maps[0] < |vol|
    ensures forall n: nat :: n < DIRECT ==> (bmap[n] == 0 <==> |slots| <= n)
  {
    assert ChainKey(0);
    MappedDirect(v, vol, bmap, slots, maps);
    if |maps| > 0 { MapInFileArea(v, vol, bmap, slots, maps, 0); }
    forall n: nat | n < DIRECT ensures bmap[n] == 0 <==> |slots| <= n {
      if n < |slots| {
        assert PlaceKey(0);
        assert BitsKey(0);
        ShlBounds(slots[n], v.clfactor);
      }
    }
  }

  /** After a successful step past entry vcn of map block k. */
  ghost predicate Filled(h: FcbHeader, k: nat, vcn: nat, maps0: nat)
    reads h
  {
    && |h.slots| == EntryIndex(k, vcn) + 1
    && var last := if vcn < PER_MAP - 1 then k else k + 1;
    |h.maps| == if last < maps0 then maps0 else last + 1
  }

  /** The disk filled up: the cluster is missing, or it is there but the next map block is not. */
  ghost predicate FillFailed(h: FcbHeader, k: nat, vcn: nat, slots0: seq<nat>, maps0: seq<nat>)
    reads h
  {
    && h.maps == maps0
    && (|h.slots| == |slots0| == EntryIndex(k, vcn) || |h.slots| == EntryIndex(|h.maps|, 0) == EntryIndex(k, vcn) + 1)
  }

  lemma LastFilled(h: FcbHeader, k: nat, vcn: nat, slots: seq<nat>, maps: seq<nat>, err: bool)
    requires EntryIndex(k, vcn) <= |slots| <= EntryIndex(k, vcn) + 1
    requires if err then StepFailed(h, k, vcn, slots) && h.maps == maps else StepFilled(h, k, vcn, |slots|, |maps|)
    ensures if err then FillFailed(h, k, vcn, slots, maps) else Filled(h, k, vcn, |maps|)
  {
  }

  /** The fill loop, from the start of the held map block k up to entry vcn. */
  method FillTo(v: Volume, fcb: Fcb, start: nat, vcn: nat, ghost k: nat, ghost held: multiset<nat>) returns (err: bool)
    requires v.Valid() && ChainedFile(v, fcb.header) && |held| + 2 <= NBUFFERS
    requires vcn < PER_MAP && FillingAt(v, fcb, start, 6, k, 0, held)
    requires EntryIndex(k, vcn) <= |fcb.header.slots| <= EntryIndex(k, vcn) + 1
    requires v.clfactor == 0 || HasFree(v, v.cache.logical, FillCost(fcb.header, k, vcn, v.clfactor))
    modifies v.cache, v.cache.buffer, fcb`curalloc, fcb.header`maps, fcb.header`nalloc, fcb.header`slots
    ensures v.Valid() && v.cache.Kept(held)
    ensures ChainedFile(v, fcb.header) && FileGrew(v, fcb.header) && Recorded(v, fcb.header)
    ensures err ==> Full(v, v.cache.logical) && v.clfactor == 0 && FillFailed(fcb.header, k, vcn, old(fcb.header.slots), old(fcb.header.maps))
    ensures !err ==> Filled(fcb.header, k, vcn, |old(fcb.header.maps)|)
    ensures MapsGrown(old(fcb.header.maps), fcb.header.maps, v.clfactor)
    ensures v.cache.pins == if err then held + multiset{LeakedBlock(v)} else held
  {
    ghost var vol, slots, maps, nalloc := v.cache.logical, fcb.header.slots, fcb.header.maps, fcb.header.nalloc;
    var buf, blkptr, n := start, 6, vcn;
    ghost var s := 0;
    while true
      invariant v.Valid() && v.cache.Kept(held) && ChainedFile(v, fcb.header)
      invariant v.cache.logical == vol && fcb.header.slots == slots && fcb.header.maps == maps && fcb.header.nalloc == nalloc
      invariant s + n == vcn && FillingAt(v, fcb, buf, blkptr, k, s, held)
      decreases n
    {
      err, buf, blkptr := FillStep(v, fcb, buf, blkptr, k, s, held);
      if n == 0 || err { LastFilled(fcb.header, k, vcn, slots, maps, err); }
      if err { return; }
      if n == 0 { break; }
      n := n - 1;
      s := s + 1;
    }
    v.cache.ReleaseBlock(buf, fcb.curalloc);
  }

  /** The direct pointers: cluster w is one of the first five. */
  method ExtendDirect(v: Volume, h: FcbHeader, w: nat) returns (err: bool)
    requires v.Valid() && ChainedFile(v, h) && |v.cache.pins| < NBUFFERS
    requires w < DIRECT && w == Clusters(h.nused, v.clfactor) && Counts(v, h.nused, |h.slots|, |h.maps|)
    requires v.clfactor == 0 || w < |h.slots| || HasFree(v, v.cache.logical, 1)
    modifies v.cache, v.cache.buffer, h`bmap, h`nalloc, h`slots
    ensures v.Valid() && v.cache.Kept(old(v.cache.pins))
    ensures ChainedFile(v, h) && FileGrew(v, h) && Recorded(v, h)
    ensures err ==> Full(v, v.cache.logical) && v.clfactor == 0 && h.slots == old(h.slots) && |h.slots| == w
    ensures !err ==> |h.slots| == w + 1
    ensures |h.slots| <= old(|h.slots|) + 1
    ensures v.cache.pins == if err then old(v.cache.pins) + multiset{LeakedBlock(v)} else old(v.cache.pins)
  {
    ghost var vol, slots := v.cache.logical, h.slots;
    FirstMapPointer(v, vol, h.bmap, slots, h.maps);
    GrewNothing(v, vol, slots, h.maps);
    var vcn, i := w, 0;
    while i < DIRECT
      invariant i + vcn == w
      invariant v.Valid() && v.cache.Kept(old(v.cache.pins)) && ChainedFile(v, h) && FileGrew(v, h)
      invariant v.cache.logical == vol && v.cache.pins == old(v.cache.pins) && h.slots == slots && h.bmap == old(h.bmap) && h.nalloc == old(h.nalloc)
    {
      if h.bmap[i] == 0 {
        err := FillDirect(v, h, i);
        if err { return; }
      }
      if vcn == 0 { return false; }
      vcn := vcn - 1;
      i := i + 1;
    }
  }

  /** The size of a file. */
  ghost function HeaderExtent(v: Volume, h: FcbHeader): Extent
    reads h
  {
    ExtentOf(h.nused, h.slots, h.maps, v.clfactor)
  }

  /** With clusters of one block: what was taken is less than the step would have taken. */
  predicate TooFew(v: Volume, x: Extent, e: nat, m: nat)
  {
    x.e <= e && x.m <= m && e + m < x.e + x.m + StepCost(x, 0)
  }

  /** What a step has made of the numbers of slots and map blocks. */
  ghost predicate Extended(v: Volume, nused: nat, slots: seq<nat>, maps: seq<nat>, slots': seq<nat>, maps': seq<nat>, err: bool)
  {
    && MapsGrown(maps, maps', v.clfactor) && Counts(v, if err then nused else nused + 1, |slots'|, |maps'|)
    && (!err ==> |slots'| == Clusters(nused, v.clfactor) + 1 && (maps' != maps <==> AddsMap(ExtentOf(nused, slots, maps, v.clfactor), v.clfactor)))
    && (err ==> v.clfactor == 0 && TooFew(v, ExtentOf(nused, slots, maps, v.clfactor), |slots'|, |maps'|))
  }

  lemma DirectExtended(v: Volume, nused: nat, slots: seq<nat>, maps: seq<nat>, slots': seq<nat>, err: bool)
    requires Counts(v, nused, |slots|, |maps|) && Clusters(nused, v.clfactor) < DIRECT
    requires err ==> v.clfactor == 0 && slots' == slots && |slots| == Clusters(nused, v.clfactor)
    requires !err ==> |slots'| == Clusters(nused, v.clfactor) + 1 && |slots'| <= |slots| + 1
    ensures Extended(v, nused, slots, maps, slots', maps, err)
  {
    if !err { ExtendedCounts(v, nused, |slots'|, |maps|); }
  }

  lemma MappedExtended(v: Volume, nused: nat, slots: seq<nat>, maps: seq<nat>, slots': seq<nat>, maps': seq<nat>, err: bool)
    requires Counts(v, nused, |slots|, |maps|) && Clusters(nused, v.clfactor) >= DIRECT && MapsGrown(maps, maps', v.clfactor)
    requires err ==> v.clfactor == 0 && TooFew(v, ExtentOf(nused, slots, maps, v.clfactor), |slots'|, |maps'|) && Counts(v, nused, |slots'|, |maps'|)
    requires !err ==> |slots'| == Clusters(nused, v.clfactor) + 1 && |maps'| == MapsFor(|slots'|) && |slots'| <= |slots| + 1 && |maps'| <= |maps| + 1
    ensures Extended(v, nused, slots, maps, slots', maps', err)
  {
    if !err { ExtendedCounts(v, nused, |slots'|, |maps'|); }
  }

  /** What the outcome of the fill loop means for the number of slots and map blocks. */
  lemma FillCounts(v: Volume, h: FcbHeader, vcn: nat, slots: seq<nat>, maps: seq<nat>, maps1: seq<nat>, err: bool)
    requires DIRECT + vcn == Clusters(h.nused, v.clfactor) && Counts(v, h.nused, |slots|, |maps|)
    requires if |maps| == 0 then |maps1| == 1 && vcn == 0 else maps1 == maps
    ensures |h.slots| <= |slots| + 1 && |h.maps| <= |maps| + 1
    requires if err then FillFailed(h, vcn / PER_MAP, vcn % PER_MAP, slots, maps1) else Filled(h, vcn / PER_MAP, vcn % PER_MAP, |maps1|)
    ensures if err then Counts(v, h.nused, |h.slots|, |h.maps|)
            else |h.slots| == DIRECT + vcn + 1 && |h.maps| == MapsFor(DIRECT + vcn + 1)
  {
    var k, s := vcn / PER_MAP, vcn % PER_MAP;
    assert EntryIndex(k, s) == DIRECT + vcn;
    if err {
      if |h.slots| != DIRECT + vcn { assert |h.slots| - DIRECT == PER_MAP * |h.maps|; }
    } else {
      assert (vcn + 1) / PER_MAP == if s < PER_MAP - 1 then k else k + 1;
    }
  }

  /** The map blocks: cluster 5 + vcn. */
  method ExtendMapped(v: Volume, fcb: Fcb, vcn: nat) returns (err: bool)
    requires v.Valid() && ChainedFile(v, fcb.header) && |v.cache.pins| + 2 <= NBUFFERS
    requires DIRECT + vcn == Clusters(fcb.header.nused, v.clfactor)
    requires Counts(v, fcb.header.nused, |fcb.header.slots|, |fcb.header.maps|)
    requires v.clfactor == 0 || HasFree(v, v.cache.logical, StepCost(HeaderExtent(v, fcb.header), v.clfactor))
    modifies v.cache, v.cache.buffer, fcb`curalloc, fcb.header`bmap, fcb.header`maps, fcb.header`nalloc, fcb.header`slots
    ensures v.Valid() && v.cache.Kept(old(v.cache.pins))
    ensures ChainedFile(v, fcb.header) && FileGrew(v, fcb.header) && Recorded(v, fcb.header)
    ensures Extended(v, fcb.header.nused, old(fcb.header.slots), old(fcb.header.maps), fcb.header.slots, fcb.header.maps, err)
    ensures err ==> Full(v, v.cache.logical)
    ensures v.cache.pins == if err then old(v.cache.pins) + multiset{LeakedBlock(v)} else old(v.cache.pins)
  {
    var h := fcb.header;
    ghost var vol, slots, maps, pins := v.cache.logical, h.slots, h.maps, v.cache.pins;
    var buf, rest;
    err, buf, rest := HoldMap(v, fcb, vcn);
    if err {
      MappedExtended(v, h.nused, slots, maps, h.slots, h.maps, err);
      return;
    }
    ghost var vol1, maps1 := v.cache.logical, h.maps;
    FillCostLeft(h, vcn, maps, maps1, v.clfactor);
    err := FillTo(v, fcb, buf, rest, vcn / PER_MAP, pins);
    GrewTransitive(v, vol, slots, maps, vol1, slots, maps1, v.cache.logical, h.slots, h.maps);
    assert |slots| <= |h.slots| by { assert GrowKey(0); }
    MappedOutcome(v, h, vcn, slots, maps, maps1, err);
  }

  /** What the fill loop may still take. */
  lemma FillCostLeft(h: FcbHeader, vcn: nat, maps: seq<nat>, maps1: seq<nat>, cf: nat)
    requires DIRECT + vcn == Clusters(h.nused, cf) && h.maps == maps1 && vcn / PER_MAP < |maps1|
    requires if maps == [] then |maps1| == 1 && vcn == 0 else maps1 == maps
    ensures FillCost(h, vcn / PER_MAP, vcn % PER_MAP, cf) + (if maps == [] then 1 else 0) <= StepCost(ExtentOf(h.nused, h.slots, maps, cf), cf)
    ensures EntryIndex(vcn / PER_MAP, vcn % PER_MAP) == DIRECT + vcn
  {
  }

  /** What the fill loop has made of the file. */
  lemma MappedOutcome(v: Volume, h: FcbHeader, vcn: nat, slots: seq<nat>, maps: seq<nat>, maps1: seq<nat>, err: bool)
    requires DIRECT + vcn == Clusters(h.nused, v.clfactor) && Counts(v, h.nused, |slots|, |maps|) && (err ==> v.clfactor == 0)
    requires if |maps| == 0 then |maps1| == 1 && vcn == 0 else maps1 == maps
    requires |slots| <= |h.slots| && MapsGrown(maps, maps1, v.clfactor) && MapsGrown(maps1, h.maps, v.clfactor)
    requires if err then FillFailed(h, vcn / PER_MAP, vcn % PER_MAP, slots, maps1) else Filled(h, vcn / PER_MAP, vcn % PER_MAP, |maps1|)
    ensures Extended(v, h.nused, slots, maps, h.slots, h.maps, err)
  {
    assert EntryIndex(vcn / PER_MAP, vcn % PER_MAP) == DIRECT + vcn;
    FillCounts(v, h, vcn, slots, maps, maps1, err);
    MapsGrownTwice(maps, maps1, h.maps, v.clfactor);
    if err { FillTooFew(v, h, vcn, slots, maps, maps1); }
    MappedExtended(v, h.nused, slots, maps, h.slots, h.maps, err);
  }

  /** Hold the map block of cluster 5 + vcn; the first one is allocated if there is none. */
  method HoldMap(v: Volume, fcb: Fcb, vcn: nat) returns (err: bool, buf: nat, rest: nat)
    requires v.Valid() && ChainedFile(v, fcb.header) && |v.cache.pins| + 2 <= NBUFFERS
    requires DIRECT + vcn == Clusters(fcb.header.nused, v.clfactor)
    requires Counts(v, fcb.header.nused, |fcb.header.slots|, |fcb.header.maps|)
    requires v.clfactor == 0 || fcb.header.maps != [] || HasFree(v, v.cache.logical, 1)
    modifies v.cache, v.cache.buffer, fcb`curalloc, fcb.header`bmap, fcb.header`maps
    ensures v.Valid() && v.cache.Kept(old(v.cache.pins))
    ensures ChainedFile(v, fcb.header) && FileGrew(v, fcb.header) && Owned(v, fcb.header.slots, fcb.header.maps) <= Used(v, v.cache.logical)
    ensures MapsGrown(old(fcb.header.maps), fcb.header.maps, v.clfactor)
    ensures err ==> Full(v, v.cache.logical) && v.clfactor == 0 && old(fcb.header.maps) == [] && fcb.header.maps == []
    ensures err ==> v.cache.pins == old(v.cache.pins) + multiset{LeakedBlock(v)}
    ensures !err ==> FillingAt(v, fcb, buf, 6, vcn / PER_MAP, 0, old(v.cache.pins)) && rest == vcn % PER_MAP
    ensures !err ==> if old(fcb.header.maps) == [] then
        |fcb.header.maps| == 1 && vcn == 0 && |Used(v, v.cache.logical)| <= |Used(v, old(v.cache.logical))| + 1
      else
        fcb.header.maps == old(fcb.header.maps) && v.cache.logical == old(v.cache.logical)
  {
    var h := fcb.header;
    ghost var vol, slots, maps := v.cache.logical, h.slots, h.maps;
    NextEntryHasMap(v, h.nused, |slots|, |maps|);
    FirstMapPointer(v, vol, h.bmap, slots, maps);
    if h.bmap[5] == 0 {
      err, buf := AddFirstMap(v, fcb);
      rest := vcn;
    } else {
      GrewNothing(v, vol, slots, maps);
      err := false;
      buf, rest := WalkChain(v, fcb, vcn);
    }
    ChainedOwned(v, v.cache.logical, h.bmap, h.slots, h.maps);
  }

  lemma MapsGrownTwice(maps: seq<nat>, maps1: seq<nat>, maps2: seq<nat>, cf: nat)
    requires MapsGrown(maps, maps1, cf) && MapsGrown(maps1, maps2, cf) && |maps2| <= |maps| + 1
    ensures MapsGrown(maps, maps2, cf)
  {
  }

  lemma FillTooFew(v: Volume, h: FcbHeader, vcn: nat, slots: seq<nat>, maps: seq<nat>, maps1: seq<nat>)
    requires DIRECT + vcn == Clusters(h.nused, v.clfactor) && Counts(v, h.nused, |slots|, |maps|) && v.clfactor == 0
    requires if |maps| == 0 then |maps1| == 1 && vcn == 0 else maps1 == maps
    requires FillFailed(h, vcn / PER_MAP, vcn % PER_MAP, slots, maps1) && |slots| <= |h.slots|
    ensures TooFew(v, ExtentOf(h.nused, slots, maps, 0), |h.slots|, |h.maps|)
  {
    var k, s := vcn / PER_MAP, vcn % PER_MAP;
    assert EntryIndex(k, s) == DIRECT + vcn;
    if |h.slots| != DIRECT + vcn {
      assert |h.slots| - DIRECT == PER_MAP * |h.maps| == vcn + 1;
      assert MapsFor(DIRECT + vcn + 1) == |h.maps| + 1;
    }
  }

  lemma ExtendedCounts(v: Volume, nused: nat, e: nat, m: nat)
    requires var w := Clusters(nused, v.clfactor);
      e == w + 1 && (if w < DIRECT then m == 0 || (e == DIRECT && m == 1) else m == MapsFor(e))
    ensures Counts(v, nused + 1, e, m)
  {
    ClustersStep(nused, v.clfactor);
  }

  /** Allocate what block vbn, the next one, needs. */
  method ExtendMap(v: Volume, fcb: Fcb, vbn: nat) returns (err: bool)
    requires v.Valid() && ChainedFile(v, fcb.header) && |v.cache.pins| + 2 <= NBUFFERS
    requires vbn == fcb.header.nused && Counts(v, vbn, |fcb.header.slots|, |fcb.header.maps|)
    requires v.clfactor == 0 || HasFree(v, v.cache.logical, StepCost(HeaderExtent(v, fcb.header), v.clfactor))
    modifies v.cache, v.cache.buffer, fcb`curalloc, fcb.header`bmap, fcb.header`maps, fcb.header`nalloc, fcb.header`slots
    ensures v.Valid() && v.cache.Kept(old(v.cache.pins))
    ensures ChainedFile(v, fcb.header) && FileGrew(v, fcb.header) && Recorded(v, fcb.header)
    ensures Extended(v, vbn, old(fcb.header.slots), old(fcb.header.maps), fcb.header.slots, fcb.header.maps, err)
    ensures err ==> Full(v, v.cache.logical)
    ensures v.cache.pins == if err then old(v.cache.pins) + multiset{LeakedBlock(v)} else old(v.cache.pins)
  {
    var h := fcb.header;
    ghost var slots, maps := h.slots, h.maps;
    var vcn := Shr(vbn, v.clfactor);
    if Low(vbn, v.clfactor) != 0 { vcn := vcn + 1; }
    if vcn < DIRECT {
      err := ExtendDirect(v, h, vcn);
      DirectExtended(v, vbn, slots, maps, h.slots, err);
    } else {
      err := ExtendMapped(v, fcb, vcn - DIRECT);
    }
  }

  /** The step takes its cost, or fails because that many clusters are not free. */
  ghost predicate Stepped(v: Volume, vol: Image, x: Extent, err: bool, vol': Image, x': Extent)
  {
    && (err <==> !HasFree(v, vol, StepCost(x, v.clfactor)))
    && (!err ==> x' == Next(x, v.clfactor) && |Used(v, vol')| == |Used(v, vol)| + StepCost(x, v.clfactor))
  }

  lemma StepIs(v: Volume, vol: Image, nused: nat, bmap: seq<nat>, slots: seq<nat>, maps: seq<nat>, vol': Image, bmap': seq<nat>, slots': seq<nat>, maps': seq<nat>, err: bool)
    requires Chained(v, vol, bmap, slots, maps) && Chained(v, vol', bmap', slots', maps') && Grew(v, vol, slots, maps, vol', slots', maps')
    requires Counts(v, nused, |slots|, |maps|) && Extended(v, nused, slots, maps, slots', maps', err) && (err ==> Full(v, vol'))
    ensures Stepped(v, vol, ExtentOf(nused, slots, maps, v.clfactor), err, vol', ExtentOf(if err then nused else nused + 1, slots', maps', v.clfactor))
  {
    GrownFootprint(v, vol, bmap, slots, maps, vol', bmap', slots', maps');
    if err {
      InitialSegmentSize(Used(v, vol'), v.NClusters());
      GrownSize(nused, slots, maps, nused, slots', maps', 0);
    } else {
      StepTaken(nused, slots, maps, slots', maps', v.clfactor);
      UsedFits(v, vol');
    }
  }

  lemma GrownFootprint(v: Volume, vol: Image, bmap: seq<nat>, slots: seq<nat>, maps: seq<nat>, vol': Image, bmap': seq<nat>, slots': seq<nat>, maps': seq<nat>)
    requires Chained(v, vol, bmap, slots, maps) && Chained(v, vol', bmap', slots', maps') && Grew(v, vol, slots, maps, vol', slots', maps')
    ensures |Used(v, vol')| == |Used(v, vol)| + |slots'| + Starts(maps', v.clfactor) - |slots| - Starts(maps, v.clfactor)
  {
    assert ChainKey(0);
    OwnedSize(v, slots, maps);
    OwnedSize(v, slots', maps');
    assert GrewClusters(Used(v, vol), Owned(v, slots, maps), Used(v, vol'), Owned(v, slots', maps')) by { assert GrowKey(0); }
    UsedGrows(Used(v, vol), Owned(v, slots, maps), Used(v, vol'), Owned(v, slots', maps'));
  }

  /** The branch for non-contiguous files. */
  method ExtendChained(v: Volume, fcb: Fcb, vbn: nat) returns (err: bool)
    requires v.Valid() && FileOk(v, fcb.header) && !fcb.header.contiguous && |v.cache.pins| + 2 <= NBUFFERS
    requires vbn == fcb.header.nused
    requires v.clfactor == 0 || HasFree(v, v.cache.logical, StepCost(HeaderExtent(v, fcb.header), v.clfactor))
    modifies v.cache, v.cache.buffer, fcb`curalloc, fcb.header
    ensures v.Valid() && v.cache.Kept(old(v.cache.pins))
    ensures fcb.header.lbcount == old(fcb.header.lbcount)
    ensures FileOk(v, fcb.header) && FileGrew(v, fcb.header) && Recorded(v, fcb.header)
    ensures fcb.header.nused == if err then old(fcb.header.nused) else vbn + 1
    ensures err ==> Full(v, v.cache.logical) && v.clfactor == 0
    ensures Stepped(v, old(v.cache.logical), old(HeaderExtent(v, fcb.header)), err, v.cache.logical, HeaderExtent(v, fcb.header))
    ensures v.cache.pins == if err then old(v.cache.pins) + multiset{LeakedBlock(v)} else old(v.cache.pins)
  {
    assert FileKey(0);
    var h := fcb.header;
    err := ExtendMap(v, fcb, vbn);
    StepIs(v, old(v.cache.logical), h.nused, old(h.bmap), old(h.slots), old(h.maps), v.cache.logical, h.bmap, h.slots, h.maps, err);
    if !err { h.nused := vbn + 1; }
  }

  /** Make block vbn exist, where vbn is at most the next block. */
  method FileExtend(v: Volume, fcb: Fcb, vbn: nat) returns (err: bool)
    requires v.Valid() && FileOk(v, fcb.header) && |v.cache.pins| + 2 <= NBUFFERS
    requires vbn <= fcb.header.nused
    requires fcb.header.contiguous || v.clfactor == 0 || vbn < fcb.header.nused || HasFree(v, v.cache.logical, StepCost(HeaderExtent(v, fcb.header), v.clfactor))
    modifies v.cache, v.cache.buffer, fcb`curalloc, fcb.header
    ensures v.Valid() && v.cache.Kept(old(v.cache.pins))
    ensures fcb.header.lbcount == old(fcb.header.lbcount)
    ensures FileOk(v, fcb.header) <==> !(err && fcb.header.contiguous)
    ensures vbn < old(fcb.header.nused) ==> !err
    ensures fcb.header.nused == if vbn < old(fcb.header.nused) || (err && !fcb.header.contiguous) then old(fcb.header.nused) else vbn + 1
    ensures fcb.header.contiguous || vbn < old(fcb.header.nused) ==>
      && v.cache.logical == old(v.cache.logical) && fcb.header.slots == old(fcb.header.slots) && fcb.header.maps == old(fcb.header.maps)
      && fcb.header.bmap == old(fcb.header.bmap) && fcb.header.nalloc == old(fcb.header.nalloc)
    ensures fcb.header.contiguous && vbn == old(fcb.header.nused) ==> (err <==> vbn >= fcb.header.nalloc)
    ensures !fcb.header.contiguous ==> FileGrew(v, fcb.header)
    ensures Recorded(v, fcb.header)
    ensures !fcb.header.contiguous && err ==> Full(v, v.cache.logical) && v.clfactor == 0
    ensures !fcb.header.contiguous && vbn == old(fcb.header.nused) ==>
      Stepped(v, old(v.cache.logical), old(HeaderExtent(v, fcb.header)), err, v.cache.logical, HeaderExtent(v, fcb.header))
    ensures v.cache.pins ==
      if err && !fcb.header.contiguous then old(v.cache.pins) + multiset{LeakedBlock(v)} else old(v.cache.pins)
  {
    var h := fcb.header;
    GrewNothing(v, v.cache.logical, h.slots, h.maps);
    if vbn < h.nused { return false; }
    if h.contiguous {
      assert FileKey(0);
      h.nused := vbn + 1;
      err := h.nused > h.nalloc;
    } else {
      err := ExtendChained(v, fcb, vbn);
    }
  }
}
