/** What each allocation inside file_extend does to a file and to the volume. */
module FileGrowth {
  import opened Bytes
  import opened Volumes
  import opened Allocation
  import opened FileMap

  ghost predicate ChainKey(k: int)
  {
    true
  }

  /** A non-contiguous file on a volume: its pointers are stored, its clusters are its own and
      are marked in the bitmap. */
  ghost predicate Chained(v: Volume, vol: Image, bmap: seq<nat>, slots: seq<nat>, maps: seq<nat>)
  {
    && |bmap| == 6
    && SystemArea(v, vol)
    && forall key {:trigger ChainKey(key)} :: Folded(key) ==>
    && Mapped(v, vol, bmap, slots, maps)
    && Placed(v, slots, maps)
    && Owned(v, slots, maps) <= Used(v, vol)
  }

  lemma BitsOnly(v: Volume, vol: Image, vol': Image, maps: seq<nat>)
    requires OnlyClusterBits(v, vol, vol')
    ensures OnlyBitsAndMaps(v, vol, vol', maps)
  {
    assert GrowKey(0);
    assert BitsKey(0);
  }

  lemma OnlyBitsThenMap(v: Volume, a: Image, b: Image, c: Image, m: nat, maps: seq<nat>)
    requires OnlyClusterBits(v, a, b) && OnlyBitsAndMaps(v, b, c, [m]) && m in maps
    ensures OnlyBitsAndMaps(v, a, c, maps)
  {
    assert GrowKey(0);
    assert BitsKey(0);
  }

  /** A cluster just taken lies inside the volume and its block number fits in 24 bits. */
  lemma {:induction false} TookInVolume(v: Volume, vol: Image, vol': Image, lbn: nat)
    requires TookCluster(v, vol, vol', lbn) && v.NBlocks() <= MAX_BLOCKS && SystemArea(v, vol)
    ensures 0 < lbn < v.NBlocks() && lbn < 0x100_0000
    ensures Low(lbn, v.clfactor) == 0 && InFileArea(v, Shr(lbn, v.clfactor))
    ensures SystemArea(v, vol')
  {
    assert BitsKey(0);
    BlockInVolume(v, Shr(lbn, v.clfactor), 0);
    JoinBlock(Shr(lbn, v.clfactor), 0, v.clfactor);
    ShlBounds(Shr(lbn, v.clfactor), v.clfactor);
  }

  /** file_extend, line 512 on: a free cluster becomes a direct pointer. */
  lemma {:induction false} DirectStep(v: Volume, vol: Image, vol': Image, bmap: seq<nat>, slots: seq<nat>, lbn: nat)
    requires Chained(v, vol, bmap, slots, []) && TookCluster(v, vol, vol', lbn)
    requires |slots| < DIRECT && v.NBlocks() <= MAX_BLOCKS
    ensures var slots' := slots + [Shr(lbn, v.clfactor)];
      Chained(v, vol', bmap[|slots| := lbn], slots', []) && Grew(v, vol, slots, [], vol', slots', [])
  {
    assert ChainKey(0);
    assert GrowKey(0);
    assert BitsKey(0);
    var c := Shr(lbn, v.clfactor);
    TookInVolume(v, vol, vol', lbn);
    MappedAfterBits(v, vol, vol', bmap, slots, []);
    GrowDirect(v, vol', bmap, slots, [], c);
    PlacedSlot(v, slots, [], c);
    BitsOnly(v, vol, vol', []);
  }

  /** A free cluster becomes entry s of map block k. */
  lemma {:induction false} SlotStep(v: Volume, vol: Image, vol': Image, bmap: seq<nat>, slots: seq<nat>, maps: seq<nat>, k: nat, s: nat, lbn: nat)
    requires Chained(v, vol, bmap, slots, maps) && TookCluster(v, vol, vol', lbn)
    requires k < |maps| && s < PER_MAP && |slots| == EntryIndex(k, s) && v.NBlocks() <= MAX_BLOCKS
    ensures maps[k] < |vol'| == |vol| && vol'[maps[k]] == vol[maps[k]]
    ensures var vol2, slots' := vol'[maps[k] := Set24(vol'[maps[k]], 6 + 3 * s, lbn)], slots + [Shr(lbn, v.clfactor)];
      Chained(v, vol2, bmap, slots', maps) && Grew(v, vol, slots, maps, vol2, slots', maps)
  {
    assert ChainKey(0);
    assert GrowKey(0);
    assert BitsKey(0);
    var c := Shr(lbn, v.clfactor);
    TookInVolume(v, vol, vol', lbn);
    MapInFileArea(v, vol, bmap, slots, maps, k);
    MappedAfterBits(v, vol, vol', bmap, slots, maps);
    GrowMapped(v, vol', bmap, slots, maps, k, s, c);
    PlacedSlot(v, slots, maps, c);
    var data: Block := Set24(vol'[maps[k]], 6 + 3 * s, lbn);
    WriteKeepsBits(v, vol', maps[k], data);
    OnlyBitsThenMap(v, vol, vol', vol'[maps[k] := data], maps[k], maps);
  }

  lemma MapInFileArea(v: Volume, vol: Image, bmap: seq<nat>, slots: seq<nat>, maps: seq<nat>, k: nat)
    requires Chained(v, vol, bmap, slots, maps) && k < |maps|
    ensures maps[k] < |vol| && InFileArea(v, Shr(maps[k], v.clfactor)) && !InBitmap(v, maps[k]) && maps[k] > 0
  {
    assert ChainKey(0);
    MappedBlock(v, vol, bmap, slots, maps, k);
    assert PlaceKey(0);
    assert BitsKey(0);
    FileBlockOutsideBitmap(v, vol, maps[k]);
    ShrOrder(maps[k], v.fileArea, v.clfactor);
    ShlBounds(v.fileArea, v.clfactor);
  }

  /** A free cluster becomes the first map block. */
  lemma FirstMapStep(v: Volume, vol: Image, vol': Image, bmap: seq<nat>, slots: seq<nat>, lbn: nat)
    requires Chained(v, vol, bmap, slots, []) && TookCluster(v, vol, vol', lbn)
    requires |slots| == DIRECT && |vol| == v.NBlocks() <= MAX_BLOCKS
    ensures lbn < |vol'|
    ensures var vol2 := vol'[lbn := NewMapBlock(0)];
      Chained(v, vol2, bmap[5 := lbn], slots, [lbn]) && Grew(v, vol, slots, [], vol2, slots, [lbn])
  {
    assert ChainKey(0);
    assert GrowKey(0);
    assert BitsKey(0);
    TookInVolume(v, vol, vol', lbn);
    MappedAfterBits(v, vol, vol', bmap, slots, []);
    GrowFirstMap(v, vol', bmap, slots, lbn);
    PlacedFreshMap(v, slots, [], lbn);
    assert [] + [lbn] == [lbn];
    WriteKeepsBits(v, vol', lbn, NewMapBlock(0));
    OnlyBitsThenMap(v, vol, vol', vol'[lbn := NewMapBlock(0)], lbn, [lbn]);
  }

  /** The last map block is full and block m, in a fresh cluster or next to the last one, is
      linked behind it. */
  lemma NextMapStep(v: Volume, vol: Image, vol': Image, bmap: seq<nat>, slots: seq<nat>, maps: seq<nat>, m: nat, newCluster: bool)
    requires Chained(v, vol, bmap, slots, maps) && |vol| == v.NBlocks() <= MAX_BLOCKS
    requires |maps| > 0 && |slots| == EntryIndex(|maps|, 0)
    requires if newCluster then TookCluster(v, vol, vol', m)
             else vol' == vol && m == maps[|maps| - 1] + 1 && Low(maps[|maps| - 1], v.clfactor) != Size(v.clfactor) - 1
    ensures var last := maps[|maps| - 1];
      && last < |vol'| == |vol| && m < |vol'| && last < 0x100_0000 && m < 0x100_0000 && m != last
      && vol'[last] == vol[last]
      && var vol2 := vol'[last := Set24(vol'[last], 3, m)][m := NewMapBlock(last)];
      Chained(v, vol2, bmap, slots, maps + [m]) && Grew(v, vol, slots, maps, vol2, slots, maps + [m])
  {
    assert ChainKey(0);
    assert GrowKey(0);
    assert BitsKey(0);
    var last := maps[|maps| - 1];
    MapInFileArea(v, vol, bmap, slots, maps, |maps| - 1);
    if newCluster {
      TookInVolume(v, vol, vol', m);
      MappedAfterBits(v, vol, vol', bmap, slots, maps);
      PlacedFreshMap(v, slots, maps, m);
    } else {
      PlacedNextMap(v, slots, maps, m);
      OwnedNextMap(v, slots, maps, m);
      ShrOrder(m, v.NClusters(), v.clfactor);
      SplitBlock(v.NBlocks(), v.clfactor);
    }
    assert last in maps;
    GrowNextMap(v, vol', bmap, slots, maps, m);
    NextMapFrame(v, vol, vol', maps, m, Set24(vol'[last], 3, m), NewMapBlock(last));
  }

  lemma {:induction false} NextMapFrame(v: Volume, vol: Image, vol': Image, maps: seq<nat>, m: nat, a: Block, b: Block)
    requires SystemArea(v, vol') && OnlyClusterBits(v, vol, vol') && |maps| > 0
    requires maps[|maps| - 1] < |vol| && InFileArea(v, Shr(maps[|maps| - 1], v.clfactor))
    requires m < |vol| == |vol'| && InFileArea(v, Shr(m, v.clfactor))
    ensures var vol2 := vol'[maps[|maps| - 1] := a][m := b];
      Used(v, vol2) == Used(v, vol') && OnlyBitsAndMaps(v, vol, vol2, maps + [m]) && SystemArea(v, vol2)
  {
    assert GrowKey(0);
    assert BitsKey(0);
    var last := maps[|maps| - 1];
    WriteKeepsBits(v, vol', last, a);
    WriteKeepsBits(v, vol'[last := a], m, b);
    assert last in maps + [m] && m in maps + [m];
  }
}
