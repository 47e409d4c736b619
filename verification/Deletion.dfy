/** Giving back the clusters of a file: the middle part of delete_file of fileio.c. */
module Deletion {
  import opened Bytes
  import opened BufferCache
  import opened Volumes
  import opened Allocation
  import opened FileMap
  import opened FileGrowth
  import opened FileExtension

  /** The first n elements, or all of them. */
  function Front(s: seq<nat>, n: nat): seq<nat>
  {
    if n <= |s| then s[..n] else s
  }

  ghost predicate FreedKey(k: int)
  {
    true
  }

  /** The first n data clusters and the clusters of the first k map blocks have been freed, and
      nothing else has changed. */
  ghost predicate Freed(v: Volume, vol0: Image, vol: Image, slots: seq<nat>, maps: seq<nat>, n: nat, k: nat)
  {
    && OnlyClusterBits(v, vol0, vol)
    && SystemArea(v, vol)
    && forall key {:trigger FreedKey(key)} :: Folded(key) ==>
    Used(v, vol) == Used(v, vol0) - Owned(v, Front(slots, n), Front(maps, k))
  }

  lemma FreedNothing(v: Volume, vol: Image, slots: seq<nat>, maps: seq<nat>)
    requires SystemArea(v, vol)
    ensures Freed(v, vol, vol, slots, maps, 0, 0)
  {
    assert BitsKey(0);
    assert Front(slots, 0) == [] && Front(maps, 0) == [];
    assert Owned(v, [], []) == {};
  }

  /** Beyond the last cluster there is nothing to free. */
  lemma FreedFurther(v: Volume, vol0: Image, vol: Image, slots: seq<nat>, maps: seq<nat>, n: nat, n': nat, k: nat)
    requires Freed(v, vol0, vol, slots, maps, n, k) && |slots| <= n <= n'
    ensures Freed(v, vol0, vol, slots, maps, n', k)
  {
    assert FreedKey(0);
    assert slots[..|slots|] == slots;
  }

  lemma DroppedOne(v: Volume, vol0: Image, vol: Image, vol': Image, c: nat)
    requires OnlyClusterBits(v, vol0, vol) && OnlyClusterBits(v, vol, vol')
    requires SystemArea(v, vol) && InFileArea(v, c) && Used(v, vol') == Used(v, vol) - {c}
    ensures OnlyClusterBits(v, vol0, vol') && SystemArea(v, vol')
  {
    OnlyClusterBitsTransitive(v, vol0, vol, vol');
    assert BitsKey(0);
  }

  lemma FreedSlot(v: Volume, vol0: Image, vol: Image, vol': Image, slots: seq<nat>, maps: seq<nat>, n: nat, k: nat)
    requires Freed(v, vol0, vol, slots, maps, n, k) && n < |slots| && Placed(v, slots, maps)
    requires OnlyClusterBits(v, vol, vol') && Used(v, vol') == Used(v, vol) - {slots[n]}
    ensures Freed(v, vol0, vol', slots, maps, n + 1, k)
  {
    assert FreedKey(0);
    assert PlaceKey(0);
    assert slots[..n + 1] == slots[..n] + [slots[n]];
    OwnedWithSlot(v, slots[..n], Front(maps, k), slots[n]);
    DroppedOne(v, vol0, vol, vol', slots[n]);
  }

  lemma FreedMap(v: Volume, vol0: Image, vol: Image, vol': Image, slots: seq<nat>, maps: seq<nat>, n: nat, k: nat)
    requires Freed(v, vol0, vol, slots, maps, n, k) && k < |maps| && Placed(v, slots, maps)
    requires OnlyClusterBits(v, vol, vol') && Used(v, vol') == Used(v, vol) - {Shr(maps[k], v.clfactor)}
    ensures Freed(v, vol0, vol', slots, maps, n, k + 1)
  {
    assert FreedKey(0);
    assert PlaceKey(0);
    assert maps[..k + 1] == maps[..k] + [maps[k]];
    OwnedWithMap(v, Front(slots, n), maps[..k], maps[k]);
    DroppedOne(v, vol0, vol, vol', Shr(maps[k], v.clfactor));
  }

  lemma FreedAll(v: Volume, vol0: Image, vol: Image, slots: seq<nat>, maps: seq<nat>, n: nat, k: nat)
    requires Freed(v, vol0, vol, slots, maps, n, k) && n >= |slots| && k >= |maps|
    ensures Used(v, vol) == Used(v, vol0) - Owned(v, slots, maps) && OnlyClusterBits(v, vol0, vol) && SystemArea(v, vol)
  {
    assert FreedKey(0);
    assert slots[..|slots|] == slots && maps[..|maps|] == maps;
  }

  /** Every data cluster has an entry in a map block or a direct pointer. */
  ghost predicate AllRecorded(slots: seq<nat>, maps: seq<nat>)
  {
    |slots| <= EntryIndex(|maps|, 0)
  }

  lemma CountsRecorded(v: Volume, nused: nat, slots: seq<nat>, maps: seq<nat>)
    requires Counts(v, nused, |slots|, |maps|)
    ensures AllRecorded(slots, maps)
  {
  }

  // ---------------------------------------------------------------
  // Contiguous files
  // ---------------------------------------------------------------

  /** nalloc blocks from blkno on. */
  method FreeRun(v: Volume, blkno: nat, nalloc: nat, ghost slots: seq<nat>)
    requires v.Valid() && |v.cache.pins| < NBUFFERS && SystemArea(v, v.cache.logical) && Placed(v, slots, [])
    requires |slots| == Clusters(nalloc, v.clfactor) && forall n: nat :: n < |slots| ==> slots[n] == Shr(blkno, v.clfactor) + n
    modifies v.cache, v.cache.buffer
    ensures v.Valid() && v.cache.Kept(old(v.cache.pins)) && v.cache.pins == old(v.cache.pins)
    ensures Freed(v, old(v.cache.logical), v.cache.logical, slots, [], |slots|, 0)
  {
    ghost var vol := v.cache.logical;
    var nclusters := Shr(nalloc, v.clfactor);
    if Low(nalloc, v.clfactor) != 0 { nclusters := nclusters + 1; }
    var clno := Shr(blkno, v.clfactor);
    ghost var n := 0;
    FreedNothing(v, vol, slots, []);
    while nclusters > 0
      invariant v.Valid() && v.cache.Kept(old(v.cache.pins)) && v.cache.pins == old(v.cache.pins)
      invariant n + nclusters == |slots| && clno == Shr(blkno, v.clfactor) + n
      invariant Freed(v, vol, v.cache.logical, slots, [], n, 0)
    {
      ghost var vol1 := v.cache.logical;
      assert InFileArea(v, slots[n]) by { assert PlaceKey(0); }
      DropCluster(v, clno);
      FreedSlot(v, vol, vol1, v.cache.logical, slots, [], n, 0);
      clno, nclusters, n := clno + 1, nclusters - 1, n + 1;
    }
  }

  // ---------------------------------------------------------------
  // Non-contiguous files
  // ---------------------------------------------------------------

  /** A pointer of the map: free its cluster if there is one. */
  method FreePointer(v: Volume, blkno: nat, ghost vol0: Image, ghost slots: seq<nat>, ghost maps: seq<nat>, ghost n: nat, ghost k: nat)
    requires v.Valid() && |v.cache.pins| < NBUFFERS
    requires Freed(v, vol0, v.cache.logical, slots, maps, n, k) && Placed(v, slots, maps) && blkno == Entry(v, slots, n)
    modifies v.cache, v.cache.buffer
    ensures v.Valid() && v.cache.Kept(old(v.cache.pins)) && v.cache.pins == old(v.cache.pins)
    ensures Freed(v, vol0, v.cache.logical, slots, maps, n + 1, k)
  {
    ghost var vol1 := v.cache.logical;
    if n < |slots| {
      assert InFileArea(v, slots[n]) by { assert PlaceKey(0); }
      assert v.fileArea > 0 by { assert BitsKey(0); }
      ShlBounds(slots[n], v.clfactor);
      JoinBlock(slots[n], 0, v.clfactor);
    }
    if blkno > 0 {
      DropCluster(v, Shr(blkno, v.clfactor));
      FreedSlot(v, vol0, vol1, v.cache.logical, slots, maps, n, k);
    } else {
      FreedFurther(v, vol0, vol1, slots, maps, n, n + 1, k);
    }
  }

  /** The five direct pointers. */
  method FreeDirect(v: Volume, bmap: seq<nat>, ghost slots: seq<nat>, ghost maps: seq<nat>)
    requires v.Valid() && |v.cache.pins| < NBUFFERS
    requires SystemArea(v, v.cache.logical) && Mapped(v, v.cache.logical, bmap, slots, maps) && Placed(v, slots, maps)
    modifies v.cache, v.cache.buffer
    ensures v.Valid() && v.cache.Kept(old(v.cache.pins)) && v.cache.pins == old(v.cache.pins)
    ensures Freed(v, old(v.cache.logical), v.cache.logical, slots, maps, DIRECT, 0)
  {
    ghost var vol := v.cache.logical;
    MappedDirect(v, vol, bmap, slots, maps);
    FreedNothing(v, vol, slots, maps);
    var i := 0;
    while i < 5
      invariant v.Valid() && v.cache.Kept(old(v.cache.pins)) && v.cache.pins == old(v.cache.pins)
      invariant i <= 5 && Freed(v, vol, v.cache.logical, slots, maps, i, 0)
    {
      FreePointer(v, bmap[i], vol, slots, maps, i, 0);
      i := i + 1;
    }
  }

  /** Freeing does not touch the map itself. */
  lemma StillMapped(v: Volume, vol0: Image, vol: Image, bmap: seq<nat>, slots: seq<nat>, maps: seq<nat>, k: nat)
    requires Mapped(v, vol0, bmap, slots, maps) && Placed(v, slots, maps) && SystemArea(v, vol0)
    requires OnlyClusterBits(v, vol0, vol) && k < |maps|
    ensures maps[k] < |vol| && MapBlockOk(v, vol[maps[k]], slots, maps, k)
  {
    MappedAfterBits(v, vol0, vol, bmap, slots, maps);
    MappedBlock(v, vol, bmap, slots, maps, k);
  }

  /** The 168 entries of map block k. */
  method FreeEntries(v: Volume, buf: nat, ghost vol0: Image, ghost bmap: seq<nat>, ghost slots: seq<nat>, ghost maps: seq<nat>, ghost k: nat)
    requires v.Valid() && |v.cache.pins| < NBUFFERS && k < |maps| && v.cache.Owns(buf, maps[k])
    requires Mapped(v, vol0, bmap, slots, maps) && Placed(v, slots, maps) && SystemArea(v, vol0)
    requires Freed(v, vol0, v.cache.logical, slots, maps, EntryIndex(k, 0), k)
    modifies v.cache, v.cache.buffer
    ensures v.Valid() && v.cache.Kept(old(v.cache.pins)) && v.cache.pins == old(v.cache.pins)
    ensures Freed(v, vol0, v.cache.logical, slots, maps, EntryIndex(k + 1, 0), k)
  {
    var blkptr := 6;
    ghost var s := 0;
    while blkptr < 510
      invariant v.Valid() && v.cache.Kept(old(v.cache.pins)) && v.cache.pins == old(v.cache.pins)
      invariant s <= PER_MAP && blkptr == 6 + 3 * s
      invariant Freed(v, vol0, v.cache.logical, slots, maps, EntryIndex(k, s), k)
    {
      StillMapped(v, vol0, v.cache.logical, bmap, slots, maps, k);
      MapBlockEntry(v, v.cache.logical[maps[k]], slots, maps, k, s);
      var data := v.cache.Data(buf);
      FreePointer(v, Get24(data, blkptr), vol0, slots, maps, EntryIndex(k, s), k);
      blkptr, s := blkptr + 3, s + 1;
    }
  }

  lemma LinkPresent(v: Volume, slots: seq<nat>, maps: seq<nat>, k: nat)
    requires Placed(v, slots, maps) && k <= |maps| && v.fileArea > 0
    ensures MapAt(maps, k) > 0 <==> k < |maps|
    ensures k < |maps| ==> InFileArea(v, Shr(maps[k], v.clfactor)) && maps[k] < v.NBlocks()
  {
    if k < |maps| {
      assert PlaceKey(0);
      ShrOrder(maps[k], v.fileArea, v.clfactor);
      ShlBounds(v.fileArea, v.clfactor);
      SplitBlock(maps[k], v.clfactor);
      BlockInVolume(v, Shr(maps[k], v.clfactor), Low(maps[k], v.clfactor));
    }
  }

  /** One map block: its entries, then its own cluster, after the link to the next was read. */
  method FreeMapBlock(v: Volume, blkno: nat, ghost vol0: Image, ghost bmap: seq<nat>, ghost slots: seq<nat>, ghost maps: seq<nat>, ghost k: nat)
    returns (next: nat)
    requires v.Valid() && |v.cache.pins| + 1 < NBUFFERS && k < |maps| && blkno == maps[k]
    requires Mapped(v, vol0, bmap, slots, maps) && Placed(v, slots, maps) && SystemArea(v, vol0)
    requires Freed(v, vol0, v.cache.logical, slots, maps, EntryIndex(k, 0), k)
    modifies v.cache, v.cache.buffer
    ensures v.Valid() && v.cache.Kept(old(v.cache.pins)) && v.cache.pins == old(v.cache.pins)
    ensures Freed(v, vol0, v.cache.logical, slots, maps, EntryIndex(k + 1, 0), k + 1)
    ensures next == MapAt(maps, k + 1)
  {
    assert v.fileArea > 0 by { assert BitsKey(0); }
    LinkPresent(v, slots, maps, k);
    ghost var held := v.cache.pins;
    var buf := v.Get(blkno);
    FreeEntries(v, buf, vol0, bmap, slots, maps, k);
    StillMapped(v, vol0, v.cache.logical, bmap, slots, maps, k);
    var data := v.cache.Data(buf);
    next := Get24(data, 3);
    v.cache.ReleaseBlock(buf, blkno);
    ghost var vol1 := v.cache.logical;
    DropCluster(v, Shr(blkno, v.clfactor));
    FreedMap(v, vol0, vol1, v.cache.logical, slots, maps, EntryIndex(k + 1, 0), k);
  }

  /** Direct pointers, then the chain of map blocks. */
  method FreeChain(v: Volume, bmap: seq<nat>, ghost slots: seq<nat>, ghost maps: seq<nat>)
    requires v.Valid() && |v.cache.pins| + 1 < NBUFFERS
    requires SystemArea(v, v.cache.logical) && Mapped(v, v.cache.logical, bmap, slots, maps) && Placed(v, slots, maps)
    requires AllRecorded(slots, maps)
    modifies v.cache, v.cache.buffer
    ensures v.Valid() && v.cache.Kept(old(v.cache.pins)) && v.cache.pins == old(v.cache.pins)
    ensures Freed(v, old(v.cache.logical), v.cache.logical, slots, maps, |slots|, |maps|)
  {
    ghost var vol := v.cache.logical;
    MappedDirect(v, vol, bmap, slots, maps);
    FreeDirect(v, bmap, slots, maps);
    var blkno := bmap[5];
    ghost var k := 0;
    while blkno > 0
      invariant v.Valid() && v.cache.Kept(old(v.cache.pins)) && v.cache.pins == old(v.cache.pins)
      invariant k <= |maps| && blkno == MapAt(maps, k)
      invariant Freed(v, vol, v.cache.logical, slots, maps, EntryIndex(k, 0), k)
      decreases |maps| - k
    {
      blkno := FreeMapBlock(v, blkno, vol, bmap, slots, maps, k);
      k := k + 1;
    }
    assert v.fileArea > 0 by { assert BitsKey(0); }
    LinkPresent(v, slots, maps, k);
    FreedRest(v, vol, v.cache.logical, slots, maps, EntryIndex(k, 0), k);
  }

  lemma FreedRest(v: Volume, vol0: Image, vol: Image, slots: seq<nat>, maps: seq<nat>, n: nat, k: nat)
    requires Freed(v, vol0, vol, slots, maps, n, k) && n >= |slots|
    ensures Freed(v, vol0, vol, slots, maps, |slots|, k)
  {
    assert FreedKey(0);
    assert slots[..|slots|] == slots;
  }

  /** The clusters of the file's inode, and no others, become free; nothing else changes. */
  method FreeFile(v: Volume, contiguous: bool, nalloc: nat, bmap: seq<nat>, ghost nused: nat, ghost slots: seq<nat>, ghost maps: seq<nat>)
    requires v.Valid() && |v.cache.pins| + 1 < NBUFFERS
    requires FileState(v, v.cache.logical, contiguous, nalloc, nused, bmap, slots, maps)
    modifies v.cache, v.cache.buffer
    ensures v.Valid() && v.cache.Kept(old(v.cache.pins)) && v.cache.pins == old(v.cache.pins)
    ensures Used(v, v.cache.logical) == Used(v, old(v.cache.logical)) - Owned(v, slots, maps)
    ensures OnlyClusterBits(v, old(v.cache.logical), v.cache.logical) && SystemArea(v, v.cache.logical)
  {
    ghost var vol := v.cache.logical;
    assert FileKey(0);
    if contiguous {
      FreeRun(v, bmap[0], nalloc, slots);
    } else {
      assert ChainKey(0);
      CountsRecorded(v, nused, slots, maps);
      FreeChain(v, bmap, slots, maps);
    }
    FreedAll(v, vol, v.cache.logical, slots, maps, |slots|, |maps|);
  }
}
