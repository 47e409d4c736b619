/** A new volume is born consistent. */
module FormatLaws {
  import opened Bytes
  import opened Volumes
  import opened Allocation
  import opened FileMap
  import opened FileGrowth
  import opened VolumeRuns
  import opened VolumeSteps
  import opened Deletion
  import opened Inodes
  import opened DiskLayout
  import opened FormatBits
  import opened Formatter
  import opened CheckerClaims
  import opened Checker
  import opened CheckerCompare
  import opened CheckerLaws

  // ---------------------------------------------------------------
  // The files of the system
  // ---------------------------------------------------------------

  function ZeroPointers(): seq<nat> { [0, 0, 0, 0, 0, 0] }

  /** The record of system inode i + 1. */
  ghost function SystemFile(l: Layout, i: nat): File
  {
    var cf, bitmaps := l.clfactor, l.bmblocks + l.ixbmblocks;
    var a := IndexCluster(cf);
    var b, c := BitmapCluster(cf, l.ixblocks), MasterCluster(cf, l.ixblocks, bitmaps);
    if i == 0 then File(true, l.ixblocks, l.ixblocks, ZeroPointers()[0 := l.ixstblk], Consecutive(a, Clusters(l.ixblocks, cf)), [])
    else if i == 1 then File(true, bitmaps, bitmaps, ZeroPointers()[0 := l.bmstblk], Consecutive(b, Clusters(bitmaps, cf)), [])
    else if i == 2 then File(false, 0, 0, ZeroPointers(), [], [])
    else if i == 3 then File(true, 2, 2, ZeroPointers(), Consecutive(0, a), [])
    else if i == 4 then File(false, 2, 2, [l.mdstblk, if cf == 0 then l.mdstblk + 1 else 0, 0, 0, 0, 0], Consecutive(c, Clusters(2, cf)), [])
    else File(true, 0, 0, ZeroPointers(), [], [])
  }

  /** Inodes 1 to n. */
  ghost function SystemMapTo(l: Layout, n: nat): (m: map<nat, File>)
    ensures forall i :: i in m <==> 1 <= i <= n
    ensures forall i: nat :: i in m ==> m[i] == SystemFile(l, i - 1)
  {
    if n == 0 then map[] else SystemMapTo(l, n - 1)[n := SystemFile(l, n - 1)]
  }

  ghost function SystemMap(l: Layout): map<nat, File>
  {
    SystemMapTo(l, 7)
  }

  /** The system files but the master directory: they do not change in size or place. */
  ghost function FixedFiles(l: Layout): map<nat, File>
  {
    SystemMap(l) - {5}
  }

  /** The master directory, an ordinary directory in a file of its own. */
  ghost function MasterFile(l: Layout): map<nat, File>
  {
    map[5 := SystemFile(l, 4)]
  }

  lemma FilesOfNewVolume(l: Layout)
    ensures FixedFiles(l) + MasterFile(l) == SystemMap(l) && FixedFiles(l).Keys !! MasterFile(l).Keys
    ensures forall i :: i in FixedFiles(l) || i in MasterFile(l) ==> 1 <= i <= 7
  {
  }

  /** Where the clusters of system file i begin, and how many there are. */
  ghost function StartOf(l: Layout, i: nat): nat
  {
    if i == 0 then IndexCluster(l.clfactor)
    else if i == 1 then BitmapCluster(l.clfactor, l.ixblocks)
    else if i == 4 then MasterCluster(l.clfactor, l.ixblocks, l.bmblocks + l.ixbmblocks)
    else 0
  }

  ghost function LengthOf(l: Layout, i: nat): nat
  {
    if i == 0 then Clusters(l.ixblocks, l.clfactor)
    else if i == 1 then Clusters(l.bmblocks + l.ixbmblocks, l.clfactor)
    else if i == 3 || i == 4 then Clusters(2, l.clfactor)
    else 0
  }

  lemma TwoBlocks(cf: nat)
    requires cf <= 3
    ensures Clusters(2, cf) == if cf == 0 then 2 else 1
    ensures Clusters(0, cf) == 0 && Shr(0, cf) == 0
  {
    ShiftsAre(2, cf);
    ShiftsAre(0, cf);
    SizeIsPower(cf);
  }

  /** What a system file claims is one run of clusters. */
  lemma SystemClaims(v: Volume, l: Layout, i: nat, c: nat)
    requires i < 7 && v.clfactor == l.clfactor <= 3
    ensures c in FileClaims(v, SystemFile(l, i)) <==> StartOf(l, i) <= c < StartOf(l, i) + LengthOf(l, i)
    ensures Distinct(FileClaims(v, SystemFile(l, i)))
  {
    TwoBlocks(l.clfactor);
    var s, n := StartOf(l, i), LengthOf(l, i);
    var f := SystemFile(l, i);
    assert f.slots == if n == 0 then [] else Consecutive(s, n);
    assert FileClaims(v, f) == f.slots;
    assert forall k: nat :: k < |f.slots| ==> f.slots[k] == s + k;
    if s <= c < s + n { assert f.slots[c - s] == c; }
  }

  /** The runs lie one behind the other and fill the system area, up to the master directory. */
  lemma SystemFilesCover(v: Volume, l: Layout)
    requires v.clfactor == l.clfactor <= 3 && v.fileArea == StartOf(l, 4)
    ensures SystemFiles(v, FixedFiles(l))
  {
    var m := FixedFiles(l);
    forall i | i in m ensures Distinct(FileClaims(v, m[i])) {
      SystemClaims(v, l, i - 1, 0);
    }
    forall i, j, c | i in m && j in m && i != j && c in FileClaims(v, m[i]) ensures c !in FileClaims(v, m[j]) {
      SystemClaims(v, l, i - 1, c);
      SystemClaims(v, l, j - 1, c);
    }
    forall c: nat ensures c < v.fileArea <==> ClaimedBy(v, m, c) {
      Covered(v, l, c);
    }
  }

  lemma Covered(v: Volume, l: Layout, c: nat)
    requires v.clfactor == l.clfactor <= 3 && v.fileArea == StartOf(l, 4)
    ensures c < v.fileArea <==> ClaimedBy(v, FixedFiles(l), c)
  {
    var m := FixedFiles(l);
    if i :| i in m && c in FileClaims(v, m[i]) { SystemClaims(v, l, i - 1, c); }
    if c < v.fileArea {
      var i := if c < StartOf(l, 0) then 3 else if c < StartOf(l, 1) then 0 else 1;
      SystemClaims(v, l, i, c);
      assert i + 1 in m && m[i + 1] == SystemFile(l, i);
    }
  }

  // ---------------------------------------------------------------
  // The index file
  // ---------------------------------------------------------------

  /** The mounted volume is the one that was formatted; the file area begins with the master
      directory. */
  ghost predicate IsMounted(v: Volume, l: Layout)
  {
    v.NBlocks() == l.nblocks && v.clfactor == l.clfactor && v.bmblock == l.bmstblk && v.ixblock == l.ixstblk && v.fileArea == StartOf(l, 4)
  }

  /** A disk that create_disk wrote; text is the rest of the volume id block. */
  datatype Recipe = Recipe(nblocks: nat, nfiles: nat, text: Block)

  ghost predicate NewDisk(disk: Image, l: Layout, r: Recipe)
  {
    && Formatted(disk, l, r.nfiles, r.text)
    && forall key {:trigger PlanKey(key)} :: Folded(key) ==> Accepted(r.nblocks, r.nfiles) && l == LayoutOf(r.nblocks, r.nfiles)
  }

  ghost predicate PlanKey(k: int)
  {
    true
  }

  lemma SystemInodeAgrees(l: Layout, nfiles: nat, i: nat, e: Inode)
    requires i < 7 && SystemSays(l, nfiles, i, e)
    ensures LinkCount(e) == 1 && Agrees(SystemFile(l, i), e)
  {
  }

  /** Inode i + 1 as it lies on the new disk. */
  lemma InodeOnDisk(v: Volume, disk: Image, l: Layout, r: Recipe, i: nat)
    requires NewDisk(disk, l, r) && IsMounted(v, l) && i < 8 * l.ixblocks && i + 1 < 0x1_0000
    ensures InodeBlock(v, i + 1) < |disk|
    ensures i < 7 ==> SystemSays(l, r.nfiles, i, InodeAt(v, disk, i + 1))
    ensures i >= 7 ==> LinkCount(InodeAt(v, disk, i + 1)) == 0
  {
    assert InodeBlock(v, i + 1) == l.ixstblk + i / 8;
    if i < 8 {
      FirstInodes(v, disk, l, i);
      assert i < 7 ==> SystemSays(l, r.nfiles, i, EntryOf(disk[l.ixstblk], i)) by { assert FormatKey(0); }
      assert EntryOf(disk[l.ixstblk], 7) == ZeroEntry() by { assert FormatKey(0); }
    } else {
      assert disk[l.ixstblk + i / 8] == ZeroBlock() by {
        assert FormatKey(0);
        assert l.ixstblk < l.ixstblk + i / 8 < l.ixstblk + l.ixblocks;
      }
      EmptyInode(v, disk, i + 1);
    }
  }

  lemma FirstInodes(v: Volume, disk: Image, l: Layout, i: nat)
    requires i < 8 && l.ixstblk < |disk| && v.ixblock == l.ixstblk
    ensures InodeBlock(v, i + 1) == l.ixstblk && InodeAt(v, disk, i + 1) == EntryOf(disk[l.ixstblk], i)
  {
  }

  lemma EmptyInode(v: Volume, disk: Image, num: nat)
    requires num < 0x1_0000 && InodeBlock(v, num) < |disk| && disk[InodeBlock(v, num)] == ZeroBlock()
    ensures LinkCount(InodeAt(v, disk, num)) == 0
  {
    var o := InodeOffset(num);
    assert ZeroBlock()[o..o + 64][0] == 0 && ZeroBlock()[o..o + 64][1] == 0;
  }

  lemma SystemFileReadable(v: Volume, disk: Image, l: Layout, r: Recipe, i: nat)
    requires NewDisk(disk, l, r) && IsMounted(v, l) && i < 7
    ensures Readable(v, disk, SystemFile(l, i))
  {
    SystemInVolume(v, disk, l, r);
    SlotsInVolume(v, l, i);
    if i == 2 {
      MappedIntro(v, disk, ZeroPointers(), [], []);
      MappedReadable(v, disk, SystemFile(l, i));
    } else if i == 4 {
      MasterMapped(v, disk, l);
      MappedReadable(v, disk, SystemFile(l, i));
    } else {
      FirstCluster(l, i);
    }
  }

  lemma MappedReadable(v: Volume, disk: Image, f: File)
    requires |f.bmap| == 6 && |f.slots| == Clusters(f.nalloc, v.clfactor) && !f.contiguous && f.maps == []
    requires Mapped(v, disk, f.bmap, f.slots, []) && |f.slots| <= DIRECT
    requires forall n: nat :: n < |f.slots| ==> 0 < f.slots[n] < v.NClusters()
    ensures Readable(v, disk, f)
  {
    assert AllRecorded(f.slots, []);
  }

  /** The clusters of a system file are those of its run. */
  lemma SlotsInVolume(v: Volume, l: Layout, i: nat)
    requires i < 7 && l.clfactor <= 3 && StartOf(l, i) + LengthOf(l, i) <= v.NClusters()
    ensures var f := SystemFile(l, i);
      && |f.slots| == LengthOf(l, i) == Clusters(f.nalloc, l.clfactor) && |f.bmap| == 6
      && forall k: nat :: k < |f.slots| ==> f.slots[k] == StartOf(l, i) + k < v.NClusters()
  {
    TwoBlocks(l.clfactor);
    assert SystemFile(l, i).slots == if LengthOf(l, i) == 0 then [] else Consecutive(StartOf(l, i), LengthOf(l, i));
  }

  lemma FirstCluster(l: Layout, i: nat)
    requires i < 7 && l.clfactor <= 3 && l.ixstblk == Shl(StartOf(l, 0), l.clfactor) && l.bmstblk == Shl(StartOf(l, 1), l.clfactor)
    ensures LengthOf(l, i) > 0 && i != 4 ==> Shr(SystemFile(l, i).bmap[0], l.clfactor) == StartOf(l, i)
  {
    TwoBlocks(l.clfactor);
    JoinBlock(StartOf(l, i), 0, l.clfactor);
  }

  lemma MasterMapped(v: Volume, disk: Image, l: Layout)
    requires v.clfactor == l.clfactor <= 3 && l.mdstblk == Shl(StartOf(l, 4), l.clfactor)
    ensures Mapped(v, disk, SystemFile(l, 4).bmap, SystemFile(l, 4).slots, []) && StartOf(l, 4) > 0
  {
    TwoBlocks(l.clfactor);
    var f, s := SystemFile(l, 4), StartOf(l, 4);
    ShlSucc(s, l.clfactor);
    SizeIsPower(l.clfactor);
    assert f.slots[0] == s;
    forall n: nat | n < DIRECT ensures f.bmap[n] == Entry(v, f.slots, n) {
      if n == 1 && l.clfactor == 0 { assert f.slots[1] == s + 1; }
    }
    MappedIntro(v, disk, f.bmap, f.slots, []);
  }

  /** Where the areas are, in clusters. */
  lemma Regions(disk: Image, r: Recipe, l: Layout)
    requires NewDisk(disk, l, r)
    ensures l.ixstblk == Shl(StartOf(l, 0), l.clfactor) && l.bmstblk == Shl(StartOf(l, 1), l.clfactor)
    ensures l.mdstblk == Shl(StartOf(l, 4), l.clfactor) && l.clfactor <= 3
    ensures l.nblocks == Shl(Shr(r.nblocks, l.clfactor), l.clfactor) && l.bmblocks == BitmapBlocks(Shr(r.nblocks, l.clfactor))
  {
    assert PlanKey(0);
  }

  lemma SystemRegion(l: Layout)
    requires l.clfactor <= 3 && l.mdstblk == Shl(StartOf(l, 4), l.clfactor)
    ensures SystemClusters(l) == StartOf(l, 4) + LengthOf(l, 4) && l.mdstblk < Shl(SystemClusters(l), l.clfactor)
    ensures forall i: nat :: i < 7 ==> StartOf(l, i) + LengthOf(l, i) <= SystemClusters(l)
  {
    TwoBlocks(l.clfactor);
    SystemEnd(StartOf(l, 4), 2, l.clfactor);
    ShlMonotone(StartOf(l, 4), SystemClusters(l), l.clfactor);
  }

  /** The system files lie inside the volume, and both bitmaps below the master directory. */
  lemma SystemInVolume(v: Volume, disk: Image, l: Layout, r: Recipe)
    requires NewDisk(disk, l, r) && IsMounted(v, l)
    ensures l.mdstblk == Shl(v.fileArea, l.clfactor) && l.clfactor <= 3
    ensures l.ixstblk == Shl(StartOf(l, 0), l.clfactor) && l.bmstblk == Shl(StartOf(l, 1), l.clfactor)
    ensures 0 < v.fileArea && SystemClusters(l) == v.fileArea + LengthOf(l, 4) <= v.NClusters()
    ensures forall i: nat :: i < 7 ==> StartOf(l, i) + LengthOf(l, i) <= SystemClusters(l)
    ensures forall c: nat :: c < v.NClusters() ==> BitBlock(c) < l.bmblocks
  {
    Regions(disk, r, l);
    SystemRegion(l);
    WholeVolume(v, l, r.nblocks);
    BitmapReaches(v.NClusters());
    TwoBlocks(l.clfactor);
  }

  lemma WholeVolume(v: Volume, l: Layout, n: nat)
    requires v.NBlocks() == l.nblocks == Shl(Shr(n, l.clfactor), l.clfactor) && v.clfactor == l.clfactor && l.mdstblk + 2 <= l.nblocks
    ensures v.NClusters() == Shr(n, l.clfactor) && SystemClusters(l) <= v.NClusters()
  {
    var x := Shr(n, l.clfactor);
    JoinBlock(x, 0, l.clfactor);
    EndInside(l.mdstblk + 2, l.nblocks, x, l.clfactor);
  }

  lemma BitmapReaches(n: nat)
    ensures forall d: nat :: d < n ==> BitBlock(d) < BitmapBlocks(n)
  {
    forall d: nat | d < n ensures BitBlock(d) < BitmapBlocks(n) {
      CursorClosedForm(d);
    }
  }

  lemma SystemEnd(c: nat, n: nat, cf: nat)
    ensures Clusters(Shl(c, cf) + n, cf) == c + Clusters(n, cf)
  {
    SplitBlock(n, cf);
    ShlAdd(c, Shr(n, cf), cf);
    JoinBlock(c + Shr(n, cf), Low(n, cf), cf);
  }

  /** Blocks below the end of whole clusters lie in those clusters. */
  lemma EndInside(n: nat, nblocks: nat, x: nat, cf: nat)
    requires nblocks == Shl(x, cf) && n <= nblocks
    ensures Clusters(n, cf) <= x
  {
    SplitBlock(n, cf);
    if Shr(n, cf) >= x { ShlMonotone(x, Shr(n, cf), cf); }
  }

  /** The index of a new volume holds the seven system files and nothing else. */
  lemma IndexOfNewDisk(v: Volume, disk: Image, l: Layout, r: Recipe, n: nat)
    requires NewDisk(disk, l, r) && IsMounted(v, l) && 7 <= n <= 8 * l.ixblocks && n < 0x1_0000
    ensures IndexIs(v, disk, SystemMap(l), n)
  {
    InodeOnDisk(v, disk, l, r, n - 1);
    forall i: nat | 1 <= i <= n && InodeBlock(v, i) < |disk|
      ensures i in SystemMap(l) <==> LinkCount(InodeAt(v, disk, i)) > 0
      ensures i in SystemMap(l) ==> Agrees(SystemMap(l)[i], InodeAt(v, disk, i)) && Readable(v, disk, SystemMap(l)[i])
    {
      IndexEntry(v, disk, l, r, i);
    }
  }

  lemma IndexEntry(v: Volume, disk: Image, l: Layout, r: Recipe, i: nat)
    requires NewDisk(disk, l, r) && IsMounted(v, l) && 1 <= i <= 8 * l.ixblocks && i < 0x1_0000 && InodeBlock(v, i) < |disk|
    ensures i <= 7 <==> LinkCount(InodeAt(v, disk, i)) > 0
    ensures i <= 7 ==> Agrees(SystemFile(l, i - 1), InodeAt(v, disk, i)) && Readable(v, disk, SystemFile(l, i - 1))
  {
    InodeOnDisk(v, disk, l, r, i - 1);
    if i <= 7 {
      SystemInodeAgrees(l, r.nfiles, i - 1, InodeAt(v, disk, i));
      SystemFileReadable(v, disk, l, r, i - 1);
    }
  }

  // ---------------------------------------------------------------
  // The volume
  // ---------------------------------------------------------------

  lemma NewBits(v: Volume, disk: Image, l: Layout, r: Recipe, c: nat)
    requires NewDisk(disk, l, r) && IsMounted(v, l) && BitBlock(c) < l.bmblocks
    ensures Bit(disk, v.bmblock, c) <==> c < SystemClusters(l)
  {
    assert forall b: nat :: l.bmstblk <= b < l.bmstblk + l.bmblocks ==> SectionBlock(disk[b], ClusterHeader(l), b - l.bmstblk, SystemClusters(l)) by {
      assert FormatKey(0);
    }
    SectionBits(disk, l.bmstblk, ClusterHeader(l), SystemClusters(l), l.bmblocks, c);
  }

  lemma NewUsed(v: Volume, disk: Image, l: Layout, r: Recipe)
    requires NewDisk(disk, l, r) && IsMounted(v, l)
    ensures SystemArea(v, disk) && forall c: nat :: c in Used(v, disk) <==> c < SystemClusters(l)
  {
    SystemInVolume(v, disk, l, r);
    forall c: nat | c < v.NClusters() ensures Bit(disk, v.bmblock, c) <==> c < SystemClusters(l) {
      NewBits(v, disk, l, r, c);
    }
    assert forall c: nat :: c in Used(v, disk) <==> c < SystemClusters(l);
    AreaInOrder(v, disk, l.bmblocks);
  }

  lemma AreaInOrder(v: Volume, disk: Image, bmblocks: nat)
    requires 0 < v.fileArea <= v.NClusters() && v.bmblock + bmblocks <= Shl(v.fileArea, v.clfactor)
    requires forall c: nat :: c < v.NClusters() ==> BitBlock(c) < bmblocks
    requires forall c: nat :: c < v.fileArea ==> c in Used(v, disk)
    ensures SystemArea(v, disk)
  {
    assert BitBlock(v.NClusters() - 1) < bmblocks;
  }

  /** The master directory of a new volume is a file in order. */
  lemma MasterSound(v: Volume, disk: Image, l: Layout, r: Recipe)
    requires NewDisk(disk, l, r) && IsMounted(v, l)
    ensures Sound(v, disk, SystemFile(l, 4)) && forall c: nat :: c in Clus(v, SystemFile(l, 4)) <==> v.fileArea <= c < SystemClusters(l)
  {
    SystemInVolume(v, disk, l, r);
    NewUsed(v, disk, l, r);
    SlotsInVolume(v, l, 4);
    MasterMapped(v, disk, l);
    MasterChained(v, disk, SystemFile(l, 4));
    TwoBlocks(l.clfactor);
    ChainedIsSound(v, disk, SystemFile(l, 4));
  }

  /** A directory of two blocks in one run of clusters. */
  lemma ChainedIsSound(v: Volume, disk: Image, f: File)
    requires !f.contiguous && |f.bmap| == 6 && f.nalloc == f.nused == 2 && f.maps == [] && |f.slots| == Clusters(2, v.clfactor) <= 2
    requires Chained(v, disk, f.bmap, f.slots, f.maps)
    ensures Sound(v, disk, f)
  {
    assert Counts(v, 2, |f.slots|, 0);
  }

  lemma MasterChained(v: Volume, disk: Image, f: File)
    requires Mapped(v, disk, f.bmap, f.slots, []) && f.maps == [] && SystemArea(v, disk)
    requires forall k: nat :: k < |f.slots| ==> f.slots[k] == v.fileArea + k < v.NClusters() && f.slots[k] in Used(v, disk)
    ensures Chained(v, disk, f.bmap, f.slots, f.maps)
    ensures forall c: nat :: c in Clus(v, f) <==> v.fileArea <= c < v.fileArea + |f.slots|
  {
    forall n: nat, m: nat | n < m < |f.slots| ensures f.slots[n] != f.slots[m] {
      assert f.slots[n] == v.fileArea + n && f.slots[m] == v.fileArea + m;
    }
    forall n: nat | n < |f.slots| ensures InFileArea(v, f.slots[n]) {
    }
    assert Placed(v, f.slots, f.maps);
    forall c: nat ensures c in Clus(v, f) <==> v.fileArea <= c < v.fileArea + |f.slots| {
      if v.fileArea <= c < v.fileArea + |f.slots| { assert f.slots[c - v.fileArea] == c; }
    }
    assert Owned(v, f.slots, f.maps) <= Used(v, disk);
  }

  /** A new volume is in order with the master directory as its only file: the bitmap marks exactly
      the system area and that file. */
  lemma NewVolumeOk(v: Volume, disk: Image, l: Layout, r: Recipe)
    requires NewDisk(disk, l, r) && IsMounted(v, l)
    ensures VolumeOk(v, disk, MasterFile(l)) && forall c: nat :: c in Used(v, disk) <==> c < SystemClusters(l)
  {
    NewUsed(v, disk, l, r);
    MasterSound(v, disk, l, r);
    SystemInVolume(v, disk, l, r);
    OneFile(v, disk, 5, SystemFile(l, 4));
  }

  lemma OneFile(v: Volume, disk: Image, i: nat, f: File)
    requires |disk| == v.NBlocks() && SystemArea(v, disk) && Sound(v, disk, f)
    requires forall c: nat :: c < v.NClusters() ==> (c in Used(v, disk) <==> c < v.fileArea || c in Clus(v, f))
    ensures VolumeOk(v, disk, map[i := f])
  {
    AllClusWith(v, map[], i, f);
    assert AllClus(v, map[] - {i}) == {};
  }

  /** The bitmap written is the one that the checker rebuilds from the system inodes, and the
      checker finds nothing allocated twice. */
  lemma NewVolumeChecks(v: Volume, disk: Image, l: Layout, r: Recipe, n: nat)
    requires NewDisk(disk, l, r) && IsMounted(v, l) && 7 <= n <= 8 * l.ixblocks && n < 0x1_0000
    ensures IndexIs(v, disk, SystemMap(l), n) && Repeats({}, IndexClaims(v, SystemMap(l), n)) == 0
    ensures forall c: nat :: c in IndexClaims(v, SystemMap(l), n) <==> c in Used(v, disk)
  {
    SystemInVolume(v, disk, l, r);
    NewVolumeOk(v, disk, l, r);
    IndexOfNewDisk(v, disk, l, r, n);
    SystemFilesCover(v, l);
    FilesOfNewVolume(l);
    ConsistentVolume(v, disk, FixedFiles(l), MasterFile(l), n);
    forall c: nat ensures c in IndexClaims(v, SystemMap(l), n) <==> c in Used(v, disk) {
      assert !Missed(v, MasterFile(l), c);
      if c in IndexClaims(v, SystemMap(l), n) { ClaimBelow(v, l, n, c); }
    }
  }

  lemma ClaimBelow(v: Volume, l: Layout, n: nat, c: nat)
    requires v.clfactor == l.clfactor <= 3 && c in IndexClaims(v, SystemMap(l), n)
    requires forall i: nat :: i < 7 ==> StartOf(l, i) + LengthOf(l, i) <= v.NClusters()
    ensures c < v.NClusters()
  {
    IndexElems(v, SystemMap(l), n, c);
    var i :| 1 <= i <= n && i in SystemMap(l) && c in FileClaims(v, SystemMap(l)[i]);
    SystemClaims(v, l, i - 1, c);
  }

  lemma HeaderKept(v: Volume, disk: Image, l: Layout, r: Recipe, bm: seq<byte>, p: nat)
    requires NewDisk(disk, l, r) && IsMounted(v, l) && p < BMHDRSZ && l.bmblocks > 0
    ensures CorrectByte(v, disk[l.bmstblk][p], bm, 0, p) == disk[l.bmstblk][p]
  {
    var d := disk[l.bmstblk];
    assert SectionBlock(d, ClusterHeader(l), 0, SystemClusters(l)) by { assert FormatKey(0); }
    assert d[p] == d[..BMHDRSZ][p] == ClusterHeader(l)[p];
    SetElsewhere(Set24(ZeroHeader(), 0, l.nblocks), 8, l.bmblocks);
  }

  lemma BitsKept(v: Volume, disk: Image, l: Layout, r: Recipe, bm: seq<byte>, b: nat, p: nat)
    requires NewDisk(disk, l, r) && IsMounted(v, l) && l.bmstblk <= b < l.bmstblk + l.bmblocks && FirstByte(b - l.bmstblk) <= p < 512
    requires forall c: nat :: c in Marked(bm) <==> c < SystemClusters(l)
    ensures CorrectByte(v, disk[b][p], bm, b - l.bmstblk, p) == disk[b][p]
  {
    var i: nat := b - l.bmstblk;
    var k := 512 * i + p - BMHDRSZ;
    if k < |bm| {
      assert SectionBlock(disk[b], ClusterHeader(l), i, SystemClusters(l)) by { assert FormatKey(0); }
      assert FillKey(0);
      SameBits(bm, disk[b][p], k, SystemClusters(l));
    }
  }

  lemma SameBits(bm: seq<byte>, d: byte, k: nat, n: nat)
    requires k < |bm| && forall c: nat :: c in Marked(bm) <==> c < n
    requires forall j: nat :: j < 8 ==> (BitOf(d, j) <==> 8 * k + j < n)
    ensures bm[k] == d
  {
    forall j: nat | j < 8 ensures BitOf(bm[k], j) <==> BitOf(d, j) {
      var c := 8 * k + j;
      assert c / 8 == k && c % 8 == j;
      assert c in Marked(bm) <==> c < n;
    }
    ByteExtensional(bm[k], d);
  }

  /** A new volume passes its first check: nothing is reported and not a byte is changed. */
  lemma NewVolumePasses(v: Volume, disk: Image, l: Layout, r: Recipe, n: nat, bm: seq<byte>, vol: Image)
    requires NewDisk(disk, l, r) && IsMounted(v, l) && 7 <= n <= 8 * l.ixblocks && n < 0x1_0000
    requires Marked(bm) == Elems(IndexClaims(v, SystemMap(l), n)) && Corrected(v, disk, vol, bm, l.bmblocks)
    ensures vol == disk
    ensures Repeats({}, IndexClaims(v, SystemMap(l), n)) + TotalDiffs(v, disk, vol, l.bmblocks) == 0
  {
    NewVolumeChecks(v, disk, l, r, n);
    NewVolumeOk(v, disk, l, r);
    assert forall c: nat :: c in Marked(bm) <==> c < SystemClusters(l);
    forall b: nat | b < |disk| ensures vol[b] == disk[b] {
      if l.bmstblk <= b < l.bmstblk + l.bmblocks { BlockKept(v, disk, l, r, bm, vol, b); } else { assert CompareKey(0); }
    }
    NoDiffs(v, disk, vol, l.bmblocks);
  }

  lemma BlockKept(v: Volume, disk: Image, l: Layout, r: Recipe, bm: seq<byte>, vol: Image, b: nat)
    requires NewDisk(disk, l, r) && IsMounted(v, l) && Corrected(v, disk, vol, bm, l.bmblocks)
    requires forall c: nat :: c in Marked(bm) <==> c < SystemClusters(l)
    requires l.bmstblk <= b < l.bmstblk + l.bmblocks
    ensures vol[b] == disk[b]
  {
    assert CorrectUpTo(v, disk[b], vol[b], bm, b - v.bmblock, 512) by { assert CompareKey(0); }
    forall p: nat | p < 512 ensures vol[b][p] == disk[b][p] {
      if p < FirstByte(b - l.bmstblk) { HeaderKept(v, disk, l, r, bm, p); } else { BitsKept(v, disk, l, r, bm, b, p); }
    }
  }

  /** Reading the volume id block of a new volume yields its layout. */
  lemma MountsAs(disk: Image, l: Layout, r: Recipe)
    requires NewDisk(disk, l, r)
    ensures Recognised(disk[1]) && Get24(disk[1], 32) == l.nblocks && disk[1][48] == l.clfactor && Get24(disk[1], 64) == l.ixstblk && Get24(disk[1], 68) == l.bmstblk
  {
    assert PlanKey(0);
    LayoutFits(r.nblocks, r.nfiles);
    VolumeIdFields(l, r.text);
    assert disk[1] == VolumeId(l, r.text) by { assert FormatKey(0); }
  }
}
