/** Where create_disk of mkdisk.c puts the system files of a new volume. */
module DiskLayout {
  import opened Volumes

  /** Sizes and places, all in blocks except the cluster factor. */
  datatype Layout = Layout(clfactor: nat, nblocks: nat, ixblocks: nat, bmblocks: nat, ixbmblocks: nat,
                           ixstblk: nat, bmstblk: nat, mdstblk: nat)

  datatype Outcome = Refused | Planned(layout: Layout)

  function ClusterFactor(nblocks: nat): (cf: nat)
    ensures cf <= 3
  {
    if nblocks <= 131072 then 0 else if nblocks <= 524288 then 1 else if nblocks <= 2097152 then 2 else 3
  }

  /** The arguments that create_disk accepts. */
  predicate Accepted(nblocks: nat, nfiles: nat)
  {
    128 <= nblocks <= MAX_BLOCKS && 32 <= nfiles <= 65536 && nfiles <= nblocks / 2
  }

  /** CLUSTER_ROUND */
  function RoundUp(blk: nat, clsize: nat): nat
    requires clsize > 0
  {
    (blk + clsize - 1) / clsize * clsize
  }

  /** The arithmetic at the start of create_disk. */
  method Plan(nblocks0: nat, nfiles: nat) returns (r: Outcome)
    ensures r.Refused? <==> !Accepted(nblocks0, nfiles)
    ensures r.Planned? ==> r.layout == LayoutOf(nblocks0, nfiles) && WellSized(nblocks0, nfiles, r.layout)
  {
    if nblocks0 < 128 { return Refused; }
    if nblocks0 > 4194304 { return Refused; }
    if nfiles < 32 { return Refused; }
    if nfiles > 65536 || nfiles > nblocks0 / 2 { return Refused; }
    var clfactor := if nblocks0 <= 131072 then 0 else if nblocks0 <= 524288 then 1 else if nblocks0 <= 2097152 then 2 else 3;
    var nclusters, nblocks := WholeClusters(nblocks0, clfactor);
    var ixblocks := (nfiles + 7) / 8;
    var bmsize := (nclusters + 7) / 8 + 16;
    var bmblocks := (bmsize + 511) / 512;
    var ixbmsize := (nfiles + 7) / 8 + 16;
    var ixbmblocks := (ixbmsize + 511) / 512;
    var ixstblk, bmstblk, mdstblk := PlaceAreas(clfactor, ixblocks, bmblocks, ixbmblocks);
    SizesAre(nblocks0, nfiles);
    return Planned(Layout(clfactor, nblocks, ixblocks, bmblocks, ixbmblocks, ixstblk, bmstblk, mdstblk));
  }

  /** nblocks, rounded to the lower cluster boundary */
  method WholeClusters(nblocks0: nat, clfactor: nat) returns (nclusters: nat, nblocks: nat)
    requires clfactor <= 3
    ensures nclusters == Shr(nblocks0, clfactor) && nblocks == Shl(nclusters, clfactor)
  {
    ShiftsAre(nblocks0, clfactor);
    nclusters := nblocks0 / Size(clfactor);
    ShiftsAre(nclusters, clfactor);
    nblocks := nclusters * Size(clfactor);
  }

  /** Index file, bitmaps and master directory, each from a cluster boundary on. */
  method PlaceAreas(clfactor: nat, ixblocks: nat, bmblocks: nat, ixbmblocks: nat) returns (ixstblk: nat, bmstblk: nat, mdstblk: nat)
    requires clfactor <= 3
    ensures ixstblk == Shl(IndexCluster(clfactor), clfactor)
    ensures bmstblk == Shl(BitmapCluster(clfactor, ixblocks), clfactor)
    ensures mdstblk == Shl(MasterCluster(clfactor, ixblocks, bmblocks + ixbmblocks), clfactor)
  {
    RoundedIs(0, 0, clfactor);
    ixstblk := NextArea(clfactor, 0, 2, 0);
    bmstblk := NextArea(clfactor, ixstblk, ixblocks, IndexCluster(clfactor));
    mdstblk := NextArea(clfactor, bmstblk, bmblocks + ixbmblocks, BitmapCluster(clfactor, ixblocks));
  }

  /** CLUSTER_ROUND(start + n), where cluster a starts at block "start" */
  method NextArea(clfactor: nat, start: nat, n: nat, ghost a: nat) returns (blk: nat)
    requires clfactor <= 3 && start == Shl(a, clfactor)
    ensures blk == Shl(a + Clusters(n, clfactor), clfactor)
  {
    RoundedIs(a, n, clfactor);
    blk := RoundUp(start + n, Size(clfactor));
  }

  // ---------------------------------------------------------------
  // The layout in clusters
  // ---------------------------------------------------------------

  function BitmapBlocks(bits: nat): nat
  {
    ((bits + 7) / 8 + 16 + 511) / 512
  }

  /** Clusters of the boot blocks, the index file and both bitmaps, and the first cluster of each
      of the following areas. */
  function IndexCluster(cf: nat): nat { Clusters(2, cf) }

  function BitmapCluster(cf: nat, ixblocks: nat): nat { IndexCluster(cf) + Clusters(ixblocks, cf) }

  function MasterCluster(cf: nat, ixblocks: nat, bitmaps: nat): nat { BitmapCluster(cf, ixblocks) + Clusters(bitmaps, cf) }

  /** The same layout, one area directly behind the other in whole clusters. */
  function LayoutOf(nblocks0: nat, nfiles: nat): Layout
  {
    var cf := ClusterFactor(nblocks0);
    var ixblocks := (nfiles + 7) / 8;
    var bmblocks, ixbmblocks := BitmapBlocks(Shr(nblocks0, cf)), BitmapBlocks(nfiles);
    Layout(cf, Shl(Shr(nblocks0, cf), cf), ixblocks, bmblocks, ixbmblocks,
           Shl(IndexCluster(cf), cf), Shl(BitmapCluster(cf, ixblocks), cf), Shl(MasterCluster(cf, ixblocks, bmblocks + ixbmblocks), cf))
  }

  /** Factor c is for up to 131072 times 4 to the power c blocks. */
  predicate FactorFits(nblocks: nat, c: nat)
  {
    nblocks <= 131072 * Size(2 * c)
  }

  /** n is the least number of blocks whose bytes behind a bitmap header hold that many bits. */
  predicate LeastBitmap(bits: nat, n: nat)
  {
    n > 0 && bits <= 8 * (512 * n - 16) && (n > 1 ==> 8 * (512 * (n - 1) - 16) < bits)
  }

  /** The cluster factor is the least that fits the disk; the disk is cut down to whole clusters; and the index
      file and the two bitmaps are as large as they must be. */
  ghost predicate WellSized(nblocks0: nat, nfiles: nat, l: Layout)
  {
    && FactorFits(nblocks0, l.clfactor) && (forall c: nat :: c < l.clfactor ==> !FactorFits(nblocks0, c))
    && l.nblocks <= nblocks0 < l.nblocks + Size(l.clfactor) && (exists n: nat :: l.nblocks == Shl(n, l.clfactor) && LeastBitmap(n, l.bmblocks))
    && nfiles <= 8 * l.ixblocks < nfiles + 8 && LeastBitmap(nfiles, l.ixbmblocks)
  }

  lemma SizesAre(nblocks0: nat, nfiles: nat)
    requires Accepted(nblocks0, nfiles)
    ensures WellSized(nblocks0, nfiles, LayoutOf(nblocks0, nfiles))
  {
    var l, n := LayoutOf(nblocks0, nfiles), Shr(nblocks0, ClusterFactor(nblocks0));
    FactorIsLeast(nblocks0);
    WholeClustersBelow(nblocks0, l.clfactor);
    BitmapIsLeast(n);
    BitmapIsLeast(nfiles);
    assert l.nblocks == Shl(n, l.clfactor) && LeastBitmap(n, l.bmblocks);
  }

  lemma FactorIsLeast(nblocks: nat)
    requires nblocks <= MAX_BLOCKS
    ensures var cf := ClusterFactor(nblocks); FactorFits(nblocks, cf) && forall c: nat :: c < cf ==> !FactorFits(nblocks, c)
  {
    assert Size(0) == 1 && Size(2) == 4 && Size(4) == 4 * Size(2) && Size(6) == 4 * Size(4);
  }

  lemma BitmapIsLeast(bits: nat)
    ensures LeastBitmap(bits, BitmapBlocks(bits))
  {
    var bytes := (bits + 7) / 8 + 16;
    assert BitmapBlocks(bits) == (bytes + 511) / 512;
  }

  lemma SizeIsPower(cf: nat)
    requires cf <= 3
    ensures Size(cf) == if cf == 0 then 1 else if cf == 1 then 2 else if cf == 2 then 4 else 8
  {
    assert Size(1) == 2 && Size(2) == 4;
  }

  /** The recursive shifts as division and multiplication. */
  lemma ShiftsAre(x: nat, cf: nat)
    requires cf <= 3
    ensures Shr(x, cf) == x / Size(cf) && Shl(x, cf) == x * Size(cf) && Low(x, cf) == x % Size(cf)
  {
    SizeIsPower(cf);
    SplitBlock(x, cf);
    if cf == 1 {
      assert Shl(x, 1) == Shl(2 * x, 0);
      assert Shr(x, 1) == Shr(x / 2, 0);
    } else if cf == 2 {
      assert Shl(x, 2) == Shl(2 * x, 1) == Shl(2 * (2 * x), 0);
      assert Shr(x, 2) == Shr(x / 2, 1) == Shr(x / 2 / 2, 0);
    } else if cf == 3 {
      assert Shl(x, 3) == Shl(2 * x, 2) == Shl(2 * (2 * x), 1) == Shl(2 * (2 * (2 * x)), 0);
      assert Shr(x, 3) == Shr(x / 2, 2) == Shr(x / 2 / 2, 1) == Shr(x / 2 / 2 / 2, 0);
    }
  }

  /** Rounding the end of an area up to a cluster leads to the cluster behind it. */
  lemma RoundedIs(a: nat, n: nat, cf: nat)
    requires cf <= 3
    ensures RoundUp(Shl(a, cf) + n, Size(cf)) == Shl(a + Clusters(n, cf), cf)
    ensures Shl(0, cf) == 0
  {
    ShiftsAre(a, cf);
    ShiftsAre(n, cf);
    ShiftsAre(a + Clusters(n, cf), cf);
    ShiftsAre(0, cf);
    SizeIsPower(cf);
    RoundedBy(a, n, Size(cf));
  }

  lemma RoundedBy(a: nat, n: nat, size: nat)
    requires size == 1 || size == 2 || size == 4 || size == 8
    ensures (a * size + n + size - 1) / size * size == (a + n / size + if n % size != 0 then 1 else 0) * size
  {
    if size == 2 { RoundedByTwo(a, n); }
    if size == 4 { RoundedByFour(a, n); }
    if size == 8 { RoundedByEight(a, n); }
  }

  lemma RoundedByTwo(a: nat, n: nat)
    ensures (a * 2 + n + 1) / 2 == a + n / 2 + if n % 2 != 0 then 1 else 0
  {
  }

  lemma RoundedByFour(a: nat, n: nat)
    ensures (a * 4 + n + 3) / 4 == a + n / 4 + if n % 4 != 0 then 1 else 0
  {
  }

  lemma RoundedByEight(a: nat, n: nat)
    ensures (a * 8 + n + 7) / 8 == a + n / 8 + if n % 8 != 0 then 1 else 0
  {
  }

  /** Every area starts at a cluster, the areas follow each other without overlap, and the whole
      fits: for every accepted size and number of files. */
  lemma LayoutFits(nblocks0: nat, nfiles: nat)
    requires Accepted(nblocks0, nfiles)
    ensures var l := LayoutOf(nblocks0, nfiles);
      && 2 <= l.ixstblk && l.ixstblk + l.ixblocks <= l.bmstblk && l.bmstblk + l.bmblocks + l.ixbmblocks <= l.mdstblk
      && l.mdstblk + 2 <= l.nblocks <= nblocks0 < l.nblocks + Size(l.clfactor)
      && l.bmblocks > 0 && l.ixbmblocks > 0
  {
    var l := LayoutOf(nblocks0, nfiles);
    AreasOrdered(l.clfactor, l.ixblocks, l.bmblocks + l.ixbmblocks);
    SystemSize(nblocks0, nfiles);
    WholeClustersBelow(nblocks0, l.clfactor);
    AreasFit(nblocks0, l.nblocks, Size(l.clfactor), l.ixblocks, l.bmblocks + l.ixbmblocks, l.ixstblk, l.bmstblk, l.mdstblk);
  }

  lemma AreasOrdered(cf: nat, ix: nat, bitmaps: nat)
    requires cf <= 3
    ensures var x, y, z := Shl(IndexCluster(cf), cf), Shl(BitmapCluster(cf, ix), cf), Shl(MasterCluster(cf, ix, bitmaps), cf);
      2 <= x < 2 + Size(cf) && x + ix <= y < x + ix + Size(cf) && y + bitmaps <= z < y + bitmaps + Size(cf)
  {
    var a, b, c := IndexCluster(cf), BitmapCluster(cf, ix), MasterCluster(cf, ix, bitmaps);
    assert 2 <= Shl(a, cf) < 2 + Size(cf) by { ClusterHolds(0, 2, cf); }
    assert Shl(a, cf) + ix <= Shl(b, cf) < Shl(a, cf) + ix + Size(cf) by { ClusterHolds(a, ix, cf); }
    assert Shl(b, cf) + bitmaps <= Shl(c, cf) < Shl(b, cf) + bitmaps + Size(cf) by { ClusterHolds(b, bitmaps, cf); }
  }

  lemma WholeClustersBelow(n: nat, cf: nat)
    ensures Shl(Shr(n, cf), cf) <= n < Shl(Shr(n, cf), cf) + Size(cf)
  {
    SplitBlock(n, cf);
  }

  lemma SystemSize(nblocks0: nat, nfiles: nat)
    requires Accepted(nblocks0, nfiles)
    ensures var l := LayoutOf(nblocks0, nfiles);
      && 2 + l.ixblocks + (l.bmblocks + l.ixbmblocks) + 3 * (Size(l.clfactor) - 1) + 2 <= nblocks0 - (Size(l.clfactor) - 1)
      && l.bmblocks > 0 && l.ixbmblocks > 0
  {
    var l := LayoutOf(nblocks0, nfiles);
    SizeIsPower(l.clfactor);
    ShrBound(nblocks0, l.clfactor);
    BitmapSize(Shr(nblocks0, l.clfactor));
    BitmapSize(nfiles);
    SystemIsSmall(nblocks0, nfiles, Size(l.clfactor), Shr(nblocks0, l.clfactor), l.ixblocks, l.bmblocks, l.ixbmblocks);
  }

  lemma AreasFit(n: nat, nblocks: nat, size: nat, ix: nat, bitmaps: nat, x: nat, y: nat, z: nat)
    requires 2 + ix + bitmaps + 3 * (size - 1) + 2 <= n - (size - 1) && nblocks <= n < nblocks + size
    requires 2 <= x < 2 + size && x + ix <= y < x + ix + size && y + bitmaps <= z < y + bitmaps + size
    ensures z + 2 <= nblocks
  {
  }

  lemma BitmapSize(bits: nat)
    ensures 0 < BitmapBlocks(bits) <= bits / 4096 + 2
  {
  }

  lemma SystemIsSmall(n: nat, nfiles: nat, size: nat, nclusters: nat, ix: nat, bm: nat, ixbm: nat)
    requires Accepted(n, nfiles) && nclusters <= n
    requires size <= 8 && (n <= 131072 ==> size == 1)
    requires ix == (nfiles + 7) / 8 && bm <= nclusters / 4096 + 2 && ixbm <= nfiles / 4096 + 2
    ensures 2 + ix + bm + ixbm + 3 * (size - 1) + 2 <= n - (size - 1)
  {
  }

  /** n blocks from a cluster on end within a cluster size of the next area. */
  lemma ClusterHolds(a: nat, n: nat, cf: nat)
    requires cf <= 3
    ensures Shl(a, cf) + n <= Shl(a + Clusters(n, cf), cf) < Shl(a, cf) + n + Size(cf) && Shl(0, cf) == 0
  {
    ShiftsAre(a, cf);
    ShiftsAre(n, cf);
    ShiftsAre(a + Clusters(n, cf), cf);
    ShiftsAre(0, cf);
    SizeIsPower(cf);
  }
}
