/** Where the blocks of a non-contiguous file lie: five direct pointers and a doubly linked
    chain of map blocks with 168 entries each.  The abstract map of a file is the sequence of
    its data clusters ("slots") and the sequence of its map blocks ("maps"). */
module FileMap {
  import opened Bytes
  import opened Volumes
  import opened Allocation

  const DIRECT: nat := 5
  const PER_MAP: nat := 168

  // ---------------------------------------------------------------
  // The representation on disk
  // ---------------------------------------------------------------

  /** The pointer stored for cluster n of the file: 0 past the last one. */
  function Entry(v: Volume, slots: seq<nat>, n: nat): nat
  {
    if n < |slots| then Shl(slots[n], v.clfactor) else 0
  }

  /** The link stored for map block k: 0 at either end of the chain. */
  function MapAt(maps: seq<nat>, k: int): nat
  {
    if 0 <= k < |maps| then maps[k] else 0
  }

  /** Block blk is map block k. */
  ghost predicate MapBlockOk(v: Volume, blk: Block, slots: seq<nat>, maps: seq<nat>, k: nat)
  {
    && Get24(blk, 0) == MapAt(maps, k - 1)
    && Get24(blk, 3) == MapAt(maps, k + 1)
    && forall s: nat :: s < PER_MAP ==> Get24(blk, EntryPos(s)) == Entry(v, slots, EntryIndex(k, s))
  }

  /** The cluster whose pointer is entry s of map block k. */
  function EntryIndex(k: nat, s: nat): nat
  {
    DIRECT + PER_MAP * k + s
  }

  /** Byte position of entry s in a map block. */
  function EntryPos(s: nat): nat
  {
    6 + 3 * s
  }

  ghost predicate MapKey(k: int)
  {
    true
  }

  /** The pointers bmap and the volume's map blocks store exactly slots and maps. */
  ghost predicate Mapped(v: Volume, vol: Image, bmap: seq<nat>, slots: seq<nat>, maps: seq<nat>)
  {
    && |bmap| == 6
    && forall key {:trigger MapKey(key)} :: Folded(key) ==>
      && (forall n: nat :: n < DIRECT ==> bmap[n] == Entry(v, slots, n))
      && bmap[5] == MapAt(maps, 0)
      && forall k: nat :: k < |maps| ==> maps[k] < |vol| && MapBlockOk(v, vol[maps[k]], slots, maps, k)
  }

  // ---------------------------------------------------------------
  // Exclusive use
  // ---------------------------------------------------------------

  /** The clusters of a file: its data clusters and the clusters of its map blocks. */
  ghost function Owned(v: Volume, slots: seq<nat>, maps: seq<nat>): set<nat>
  {
    (set c | c in slots) + (set m | m in maps :: Shr(m, v.clfactor))
  }

  ghost predicate PlaceKey(k: int)
  {
    true
  }

  ghost predicate InFileArea(v: Volume, c: nat)
  {
    v.fileArea <= c < v.NClusters()
  }

  /** No cluster serves two purposes, and map blocks fill their clusters in order. */
  ghost predicate Placed(v: Volume, slots: seq<nat>, maps: seq<nat>)
  {
    forall key {:trigger PlaceKey(key)} :: Folded(key) ==>
      && (forall n: nat :: n < |slots| ==> InFileArea(v, slots[n]))
      && (forall k: nat :: k < |maps| ==> InFileArea(v, Shr(maps[k], v.clfactor)))
      && (forall n: nat, m: nat :: n < m < |slots| ==> slots[n] != slots[m])
      && (forall n: nat, k: nat :: n < |slots| && k < |maps| ==> slots[n] != Shr(maps[k], v.clfactor))
      && (forall j: nat, k: nat :: j < k < |maps| && Shr(maps[j], v.clfactor) == Shr(maps[k], v.clfactor) ==> maps[j] < maps[k])
      && (maps != [] ==> Low(maps[0], v.clfactor) == 0)
      && (forall k: nat :: 0 < k < |maps| ==> Low(maps[k], v.clfactor) == 0 || maps[k] == maps[k - 1] + 1)
  }

  // ---------------------------------------------------------------
  // How many slots and map blocks a file of nused blocks has
  // ---------------------------------------------------------------

  /** Map blocks that hold the entries of e clusters, with the next one linked as soon as one
      is full. */
  function MapsFor(e: nat): nat
  {
    if e <= DIRECT then 0 else (e - DIRECT) / PER_MAP + 1
  }

  /** The state between calls to file_extend.  w is the cluster that the next block needs.  The
      last alternative is left behind when the disk fills up before the next map block. */
  ghost predicate Counts(v: Volume, nused: nat, e: nat, m: nat)
  {
    var w := Clusters(nused, v.clfactor);
    && w <= e <= w + 1
    && (|| m == MapsFor(e)
        || (e == DIRECT && m == 1)
        || (e == w + 1 && e > DIRECT && (e - DIRECT) % PER_MAP == 0 && m == (e - DIRECT) / PER_MAP))
  }

  /** The next cluster's entry lies in an existing map block, unless it is the very first. */
  lemma NextEntryHasMap(v: Volume, nused: nat, e: nat, m: nat)
    requires Counts(v, nused, e, m)
    ensures var w := Clusters(nused, v.clfactor);
      w >= DIRECT ==> (w - DIRECT) / PER_MAP < m || (m == 0 && w == e == DIRECT)
  {
  }

  // ---------------------------------------------------------------
  // Pieces
  // ---------------------------------------------------------------

  lemma MappedBlock(v: Volume, vol: Image, bmap: seq<nat>, slots: seq<nat>, maps: seq<nat>, k: nat)
    requires Mapped(v, vol, bmap, slots, maps) && k < |maps|
    ensures maps[k] < |vol| && MapBlockOk(v, vol[maps[k]], slots, maps, k)
  {
    assert MapKey(0);
  }

  lemma MappedDirect(v: Volume, vol: Image, bmap: seq<nat>, slots: seq<nat>, maps: seq<nat>)
    requires Mapped(v, vol, bmap, slots, maps)
    ensures forall n: nat :: n < DIRECT ==> bmap[n] == Entry(v, slots, n)
    ensures bmap[5] == MapAt(maps, 0)
  {
    assert MapKey(0);
  }

  lemma MapBlockEntry(v: Volume, blk: Block, slots: seq<nat>, maps: seq<nat>, k: nat, s: nat)
    requires MapBlockOk(v, blk, slots, maps, k) && s < PER_MAP
    ensures Get24(blk, 6 + 3 * s) == Entry(v, slots, EntryIndex(k, s))
  {
    assert EntryPos(s) == 6 + 3 * s;
  }

  lemma MappedIntro(v: Volume, vol: Image, bmap: seq<nat>, slots: seq<nat>, maps: seq<nat>)
    requires |bmap| == 6 && bmap[5] == MapAt(maps, 0)
    requires forall n: nat :: n < DIRECT ==> bmap[n] == Entry(v, slots, n)
    requires forall k: nat :: k < |maps| ==> maps[k] < |vol| && MapBlockOk(v, vol[maps[k]], slots, maps, k)
    ensures Mapped(v, vol, bmap, slots, maps)
  {
  }

  /** The map of a file depends on nothing but its own map blocks. */
  lemma MappedFrame(v: Volume, vol: Image, vol': Image, bmap: seq<nat>, slots: seq<nat>, maps: seq<nat>)
    requires Mapped(v, vol, bmap, slots, maps)
    requires |vol'| == |vol|
    requires forall k: nat :: k < |maps| && maps[k] < |vol| ==> vol'[maps[k]] == vol[maps[k]]
    ensures Mapped(v, vol', bmap, slots, maps)
  {
    assert MapKey(0);
  }

  /** Blocks of the file area are not touched by allocation. */
  lemma {:induction false} FileBlockOutsideBitmap(v: Volume, vol: Image, b: nat)
    requires SystemArea(v, vol) && InFileArea(v, Shr(b, v.clfactor))
    ensures !InBitmap(v, b)
  {
    assert BitsKey(0);
    ShrOrder(b, v.fileArea, v.clfactor);
  }

  lemma {:induction false} BlockInVolume(v: Volume, c: nat, r: nat)
    requires c < v.NClusters() && r < Size(v.clfactor)
    ensures Shl(c, v.clfactor) + r < v.NBlocks()
  {
    JoinBlock(c, r, v.clfactor);
    ShrOrder(Shl(c, v.clfactor) + r, v.NClusters(), v.clfactor);
    SplitBlock(v.NBlocks(), v.clfactor);
  }

  /** Allocation and freeing elsewhere leave the map alone. */
  lemma MappedAfterBits(v: Volume, vol: Image, vol': Image, bmap: seq<nat>, slots: seq<nat>, maps: seq<nat>)
    requires Mapped(v, vol, bmap, slots, maps) && Placed(v, slots, maps)
    requires SystemArea(v, vol) && OnlyClusterBits(v, vol, vol')
    ensures Mapped(v, vol', bmap, slots, maps)
  {
    assert BitsKey(0);
    forall k: nat | k < |maps| && maps[k] < |vol| ensures vol'[maps[k]] == vol[maps[k]] {
      assert PlaceKey(0);
      FileBlockOutsideBitmap(v, vol, maps[k]);
    }
    MappedFrame(v, vol, vol', bmap, slots, maps);
  }

  // ---------------------------------------------------------------
  // Growth steps
  // ---------------------------------------------------------------

  /** The new cluster's entry is written into map block k ... */
  lemma {:induction false} GrownMapBlock(v: Volume, blk: Block, slots: seq<nat>, maps: seq<nat>, k: nat, s: nat, c: nat)
    requires MapBlockOk(v, blk, slots, maps, k)
    requires s < PER_MAP && |slots| == EntryIndex(k, s) && Shl(c, v.clfactor) < 0x100_0000
    ensures MapBlockOk(v, Set24(blk, 6 + 3 * s, Shl(c, v.clfactor)), slots + [c], maps, k)
  {
    var lbn := Shl(c, v.clfactor);
    var blk': Block := Set24(blk, 6 + 3 * s, lbn);
    Get24AfterSet24(blk, 6 + 3 * s, lbn);
    Get24ApartFromSet24(blk, 6 + 3 * s, lbn, 0);
    Get24ApartFromSet24(blk, 6 + 3 * s, lbn, 3);
    forall t: nat | t < PER_MAP ensures Get24(blk', EntryPos(t)) == Entry(v, slots + [c], EntryIndex(k, t)) {
      if t != s { Get24ApartFromSet24(blk, 6 + 3 * s, lbn, EntryPos(t)); }
    }
  }

  /** ... so a sixth or later cluster is recorded in the last map block. */
  lemma {:induction false} GrowMapped(v: Volume, vol: Image, bmap: seq<nat>, slots: seq<nat>, maps: seq<nat>, k: nat, s: nat, c: nat)
    requires Mapped(v, vol, bmap, slots, maps) && Placed(v, slots, maps)
    requires k < |maps| && s < PER_MAP && |slots| == EntryIndex(k, s)
    requires Shl(c, v.clfactor) < 0x100_0000
    ensures maps[k] < |vol|
    ensures Mapped(v, vol[maps[k] := Set24(vol[maps[k]], 6 + 3 * s, Shl(c, v.clfactor))], bmap, slots + [c], maps)
  {
    MappedBlock(v, vol, bmap, slots, maps, k);
    var vol' := vol[maps[k] := Set24(vol[maps[k]], 6 + 3 * s, Shl(c, v.clfactor))];
    GrownMapBlock(v, vol[maps[k]], slots, maps, k, s, c);
    forall j: nat | j < |maps| ensures maps[j] < |vol'| && MapBlockOk(v, vol'[maps[j]], slots + [c], maps, j) {
      MappedBlock(v, vol, bmap, slots, maps, j);
      if j != k {
        MapsDistinct(v, slots, maps, j, k);
        OtherMapBlock(v, vol[maps[j]], slots, maps, j, k, s, c);
      }
    }
    MappedDirect(v, vol, bmap, slots, maps);
    MappedIntro(v, vol', bmap, slots + [c], maps);
  }

  lemma MapsDistinct(v: Volume, slots: seq<nat>, maps: seq<nat>, j: nat, k: nat)
    requires Placed(v, slots, maps) && j < |maps| && k < |maps| && j != k
    ensures maps[j] != maps[k]
  {
    assert PlaceKey(0);
  }

  /** The new cluster's entry belongs to map block k, so the others need not change. */
  lemma OtherMapBlock(v: Volume, blk: Block, slots: seq<nat>, maps: seq<nat>, j: nat, k: nat, s: nat, c: nat)
    requires MapBlockOk(v, blk, slots, maps, j)
    requires j != k && s < PER_MAP && |slots| == EntryIndex(k, s)
    ensures MapBlockOk(v, blk, slots + [c], maps, j)
  {
    forall t: nat | t < PER_MAP
      ensures Get24(blk, EntryPos(t)) == Entry(v, slots + [c], EntryIndex(j, t))
    {
      assert EntryIndex(j, t) != |slots|;
    }
  }

  /** One of the first five clusters: its pointer goes into the file header. */
  lemma {:induction false} GrowDirect(v: Volume, vol: Image, bmap: seq<nat>, slots: seq<nat>, maps: seq<nat>, c: nat)
    requires Mapped(v, vol, bmap, slots, maps)
    requires |slots| < DIRECT && |maps| == 0
    ensures Mapped(v, vol, bmap[|slots| := Shl(c, v.clfactor)], slots + [c], maps)
  {
    assert MapKey(0);
  }

  /** The contents of a freshly linked map block. */
  function NewMapBlock(prev: nat): Block
  {
    Set24(ZeroBlock(), 0, prev)
  }

  lemma NewMapBlockFields(prev: nat)
    requires prev < 0x100_0000
    ensures Get24(NewMapBlock(prev), 0) == prev && Get24(NewMapBlock(prev), 3) == 0
    ensures forall s: nat :: s < PER_MAP ==> Get24(NewMapBlock(prev), EntryPos(s)) == 0
  {
    Get24AfterSet24(ZeroBlock(), 0, prev);
    Get24ApartFromSet24(ZeroBlock(), 0, prev, 3);
    forall s: nat | s < PER_MAP ensures Get24(NewMapBlock(prev), EntryPos(s)) == 0 {
      Get24ApartFromSet24(ZeroBlock(), 0, prev, EntryPos(s));
    }
  }

  /** The first map block. */
  lemma GrowFirstMap(v: Volume, vol: Image, bmap: seq<nat>, slots: seq<nat>, m: nat)
    requires Mapped(v, vol, bmap, slots, []) && |slots| == DIRECT && m < |vol|
    ensures Mapped(v, vol[m := NewMapBlock(0)], bmap[5 := m], slots, [m])
  {
    assert MapKey(0);
    NewMapBlockFields(0);
  }

  /** The last map block after a further one is linked behind it. */
  lemma LinkedMapBlock(v: Volume, blk: Block, slots: seq<nat>, maps: seq<nat>, m: nat)
    requires |maps| > 0 && MapBlockOk(v, blk, slots, maps, |maps| - 1) && m < 0x100_0000
    ensures MapBlockOk(v, Set24(blk, 3, m), slots, maps + [m], |maps| - 1)
  {
    var blk': Block := Set24(blk, 3, m);
    Get24AfterSet24(blk, 3, m);
    Get24ApartFromSet24(blk, 3, m, 0);
    forall t: nat | t < PER_MAP ensures Get24(blk', EntryPos(t)) == Entry(v, slots, EntryIndex(|maps| - 1, t)) {
      Get24ApartFromSet24(blk, 3, m, EntryPos(t));
    }
  }

  /** The new map block itself holds entries of clusters the file does not have yet. */
  lemma EmptyMapBlock(v: Volume, slots: seq<nat>, maps: seq<nat>, k: nat)
    requires k + 1 == |maps| && |slots| <= EntryIndex(k, 0)
    requires MapAt(maps, k - 1) < 0x100_0000
    ensures MapBlockOk(v, NewMapBlock(MapAt(maps, k - 1)), slots, maps, k)
  {
    NewMapBlockFields(MapAt(maps, k - 1));
  }

  /** A further map block, linked behind the last one when that is full. */
  lemma GrowNextMap(v: Volume, vol: Image, bmap: seq<nat>, slots: seq<nat>, maps: seq<nat>, m: nat)
    requires Mapped(v, vol, bmap, slots, maps) && Placed(v, slots, maps)
    requires |maps| > 0 && |slots| == EntryIndex(|maps|, 0)
    requires m < |vol| && m !in maps && m < 0x100_0000 && maps[|maps| - 1] < 0x100_0000
    ensures maps[|maps| - 1] < |vol|
    ensures var last := maps[|maps| - 1];
      Mapped(v, vol[last := Set24(vol[last], 3, m)][m := NewMapBlock(last)], bmap, slots, maps + [m])
  {
    var k := |maps| - 1;
    var last := maps[k];
    MappedBlock(v, vol, bmap, slots, maps, k);
    var vol' := vol[last := Set24(vol[last], 3, m)][m := NewMapBlock(last)];
    var maps' := maps + [m];
    forall j: nat | j < |maps'| ensures maps'[j] < |vol'| && MapBlockOk(v, vol'[maps'[j]], slots, maps', j) {
      if j < k {
        MapsDistinct(v, slots, maps, j, k);
        MappedBlock(v, vol, bmap, slots, maps, j);
        assert maps[j] in maps;
        assert vol'[maps'[j]] == vol[maps[j]];
      } else if j == k {
        assert maps[k] in maps;
        LinkedMapBlock(v, vol[last], slots, maps, m);
      } else {
        EmptyMapBlock(v, slots, maps', j);
      }
    }
    MappedDirect(v, vol, bmap, slots, maps);
    MappedIntro(v, vol', bmap, slots, maps');
  }

  /** A fresh cluster keeps the file's clusters exclusive. */
  lemma PlacedSlot(v: Volume, slots: seq<nat>, maps: seq<nat>, c: nat)
    requires Placed(v, slots, maps)
    requires InFileArea(v, c) && c !in Owned(v, slots, maps)
    ensures Placed(v, slots + [c], maps)
    ensures Owned(v, slots + [c], maps) == Owned(v, slots, maps) + {c}
  {
    assert PlaceKey(0);
    var slots' := slots + [c];
    forall n: nat, k: nat | n < |slots'| && k < |maps| ensures slots'[n] != Shr(maps[k], v.clfactor) {
      assert Shr(maps[k], v.clfactor) in Owned(v, slots, maps) by { assert maps[k] in maps; }
    }
    forall n: nat, m: nat | n < m < |slots'| ensures slots'[n] != slots'[m] {
      assert slots[n] in slots;
    }
  }

  /** A map block at the start of a fresh cluster keeps them exclusive. */
  lemma {:induction false} PlacedFreshMap(v: Volume, slots: seq<nat>, maps: seq<nat>, m: nat)
    requires Placed(v, slots, maps)
    requires Low(m, v.clfactor) == 0 && InFileArea(v, Shr(m, v.clfactor)) && Shr(m, v.clfactor) !in Owned(v, slots, maps)
    ensures m !in maps
    ensures Placed(v, slots, maps + [m])
    ensures Owned(v, slots, maps + [m]) == Owned(v, slots, maps) + {Shr(m, v.clfactor)}
  {
    assert PlaceKey(0);
    var c := Shr(m, v.clfactor);
    forall k: nat | k < |maps| ensures Shr(maps[k], v.clfactor) != c { assert maps[k] in maps; }
    forall n: nat | n < |slots| ensures slots[n] != c { assert slots[n] in slots; }
    OwnedWithMap(v, slots, maps, m);
  }

  lemma {:induction false} OwnedWithMap(v: Volume, slots: seq<nat>, maps: seq<nat>, m: nat)
    ensures Owned(v, slots, maps + [m]) == Owned(v, slots, maps) + {Shr(m, v.clfactor)}
  {
    var maps' := maps + [m];
    var a, b := (set x | x in maps' :: Shr(x, v.clfactor)), (set x | x in maps :: Shr(x, v.clfactor));
    assert m in maps';
    forall c ensures c in a <==> c in b + {Shr(m, v.clfactor)} {
      if c in b {
        var x :| x in maps && Shr(x, v.clfactor) == c;
        assert x in maps';
      }
    }
  }

  /** A map block placed next to the last one, inside the same cluster. */
  lemma PlacedNextMap(v: Volume, slots: seq<nat>, maps: seq<nat>, m: nat)
    requires Placed(v, slots, maps) && |maps| > 0 && m == maps[|maps| - 1] + 1
    requires Low(maps[|maps| - 1], v.clfactor) != Size(v.clfactor) - 1
    ensures m !in maps && Shr(m, v.clfactor) == Shr(m - 1, v.clfactor)
    ensures Placed(v, slots, maps + [m])
  {
    assert PlaceKey(0);
    var last := maps[|maps| - 1];
    NextInCluster(last, v.clfactor);
    forall k: nat | k < |maps| && Shr(maps[k], v.clfactor) == Shr(m, v.clfactor) ensures maps[k] < m {
      assert k < |maps| - 1 ==> maps[k] < last;
    }
  }

  lemma {:induction false} OwnedNextMap(v: Volume, slots: seq<nat>, maps: seq<nat>, m: nat)
    requires |maps| > 0 && Shr(m, v.clfactor) == Shr(maps[|maps| - 1], v.clfactor)
    ensures Owned(v, slots, maps + [m]) == Owned(v, slots, maps)
  {
    OwnedWithMap(v, slots, maps, m);
    OwnedHasMap(v, slots, maps, |maps| - 1);
  }

  lemma OwnedHasMap(v: Volume, slots: seq<nat>, maps: seq<nat>, k: nat)
    requires k < |maps|
    ensures Shr(maps[k], v.clfactor) in Owned(v, slots, maps)
  {
    assert maps[k] in maps;
  }

  // ---------------------------------------------------------------
  // Growth as seen from the whole volume
  // ---------------------------------------------------------------

  ghost predicate GrowKey(k: int)
  {
    true
  }

  /** A file grew: its clusters are kept in order, every added cluster was free before and is
      marked now, no other cluster changed state, and only bitmap bits and the file's own map
      blocks were written. */
  ghost predicate Grew(v: Volume, vol: Image, slots: seq<nat>, maps: seq<nat>, vol': Image, slots': seq<nat>, maps': seq<nat>)
  {
    forall key {:trigger GrowKey(key)} :: Folded(key) ==>
    && slots <= slots' && maps <= maps'
    && GrewClusters(Used(v, vol), Owned(v, slots, maps), Used(v, vol'), Owned(v, slots', maps'))
    && OnlyBitsAndMaps(v, vol, vol', maps')
  }

  ghost predicate GrewClusters(used: set<nat>, own: set<nat>, used': set<nat>, own': set<nat>)
  {
    own <= own' && used' == used + (own' - own) && (own' - own) !! used
  }

  ghost predicate OnlyBitsAndMaps(v: Volume, vol: Image, vol': Image, maps: seq<nat>)
  {
    forall key {:trigger GrowKey(key)} :: Folded(key) ==>
    && |vol'| == |vol|
    && (forall b: nat :: b < |vol| && !InBitmap(v, b) && b !in maps ==> vol'[b] == vol[b])
    && (v.bmblock < |vol| ==> forall o: nat :: o < BMHDRSZ ==> vol'[v.bmblock][o] == vol[v.bmblock][o])
    && (forall i: nat :: i >= v.NClusters() && InBitmap(v, v.bmblock + BitBlock(i)) ==> Bit(vol', v.bmblock, i) == Bit(vol, v.bmblock, i))
  }

  lemma GrewNothing(v: Volume, vol: Image, slots: seq<nat>, maps: seq<nat>)
    ensures Grew(v, vol, slots, maps, vol, slots, maps)
  {
    assert GrowKey(0);
  }

  lemma GrewTransitive(v: Volume, v0: Image, s0: seq<nat>, m0: seq<nat>, v1: Image, s1: seq<nat>, m1: seq<nat>, v2: Image, s2: seq<nat>, m2: seq<nat>)
    requires Grew(v, v0, s0, m0, v1, s1, m1) && Grew(v, v1, s1, m1, v2, s2, m2)
    requires Owned(v, s1, m1) <= Used(v, v1)
    ensures Grew(v, v0, s0, m0, v2, s2, m2)
  {
    assert GrowKey(0);
    assert forall b :: b in m1 ==> b in m2;
  }

  lemma OwnedWithSlot(v: Volume, slots: seq<nat>, maps: seq<nat>, c: nat)
    ensures Owned(v, slots + [c], maps) == Owned(v, slots, maps) + {c}
  {
  }

  /** A write to a block of the file area changes no bit. */
  lemma {:induction false} WriteKeepsBits(v: Volume, vol: Image, b: nat, data: Block)
    requires SystemArea(v, vol) && b < |vol| && InFileArea(v, Shr(b, v.clfactor))
    ensures Used(v, vol[b := data]) == Used(v, vol)
    ensures OnlyBitsAndMaps(v, vol, vol[b := data], [b])
  {
    assert BitsKey(0);
    assert GrowKey(0);
    FileBlockOutsideBitmap(v, vol, b);
    forall c: nat | c < v.NClusters() ensures Bit(vol[b := data], v.bmblock, c) == Bit(vol, v.bmblock, c) {
      BitBlockOfCluster(v, c);
    }
    BitBlockOfCluster(v, 0);
  }
}
