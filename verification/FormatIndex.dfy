/** The index of a new volume: what create_file and delete_file rely on. */
module FormatIndex {
  import opened Bytes
  import opened Volumes
  import opened Inodes
  import opened IndexArea
  import opened DiskLayout
  import opened FormatBits
  import opened Formatter
  import opened FormatLaws

  lemma ClusterHeaderFields(l: Layout)
    requires l.bmblocks < 0x100_0000 && l.clfactor < 256
    ensures Get24(ClusterHeader(l), 8) == l.bmblocks
  {
    var h1 := Set24(ZeroHeader(), 0, l.nblocks);
    Get24AfterSet24(h1, 8, l.bmblocks);
    assert Get24(Set24(h1, 8, l.bmblocks)[4 := l.clfactor], 8) == Get24(Set24(h1, 8, l.bmblocks), 8);
  }

  lemma IndexHeaderFields(nfiles: nat)
    requires nfiles <= 65536
    ensures Get16(IndexHeader(nfiles), 0) == if nfiles == 65536 then 0 else nfiles
  {
    var h := IndexHeader(nfiles);
    assert h[0] == nfiles % 256 && h[1] == nfiles / 256 % 256;
  }

  lemma SameHeader(b: Block, h: seq<byte>, i: nat)
    requires |h| == BMHDRSZ && b[..BMHDRSZ] == h && i + 3 <= BMHDRSZ
    ensures Get24(b, i) == Get24(h, i) && Get16(b, i) == Get16(h, i)
  {
    assert forall o: nat :: o < BMHDRSZ ==> b[o] == b[..BMHDRSZ][o] == h[o];
  }

  /** Where mounting and the inode allocator find the index bitmap, and how many inodes there are:
      a volume for 65536 files has none. */
  lemma NewIndexHeaders(v: Volume, disk: Image, l: Layout, r: Recipe)
    requires NewDisk(disk, l, r) && IsMounted(v, l)
    ensures v.bmblock < |disk| && IxBitmap(v, disk) == l.bmstblk + l.bmblocks < |disk|
    ensures Files(v, disk) == if r.nfiles == 65536 then 0 else r.nfiles
    ensures l.bmblocks > 0 && l.ixbmblocks > 0 && l.ixblocks == (r.nfiles + 7) / 8 && l.ixbmblocks == BitmapBlocks(r.nfiles) && r.nfiles <= 65536
  {
    assert PlanKey(0);
    LayoutFits(r.nblocks, r.nfiles);
    var ix := l.bmstblk + l.bmblocks;
    assert SectionBlock(disk[l.bmstblk], ClusterHeader(l), 0, SystemClusters(l)) && SectionBlock(disk[ix], IndexHeader(r.nfiles), 0, 7) by {
      assert FormatKey(0);
      assert l.bmstblk <= ix;
    }
    ClusterHeaderFields(l);
    IndexHeaderFields(r.nfiles);
    SameHeader(disk[l.bmstblk], ClusterHeader(l), 8);
    SameHeader(disk[ix], IndexHeader(r.nfiles), 0);
  }

  /** The index of a new volume is in place, and of its entries the first seven are marked. */
  lemma NewIndexOk(v: Volume, disk: Image, l: Layout, r: Recipe)
    requires NewDisk(disk, l, r) && IsMounted(v, l)
    ensures IndexAreaOk(v, disk)
    ensures forall j: nat :: j < Files(v, disk) ==> (Bit(disk, IxBitmap(v, disk), j) <==> j < 7)
  {
    NewIndexHeaders(v, disk, l, r);
    SystemInVolume(v, disk, l, r);
    IndexInside(Files(v, disk), r.nfiles);
    assert BitBlock(v.NClusters() - 1) < l.bmblocks;
    forall j: nat | j < Files(v, disk) ensures Bit(disk, IxBitmap(v, disk), j) <==> j < 7 {
      IndexBit(v, disk, l, r, j);
    }
  }

  lemma {:induction false} IndexInside(n: nat, nfiles: nat)
    requires n <= nfiles
    ensures BitBlock(n) <= BitmapBlocks(nfiles) && (forall j: nat :: j < n ==> BitBlock(j) < BitmapBlocks(nfiles))
  {
    CursorClosedForm(n);
    forall j: nat | j < n ensures BitBlock(j) < BitmapBlocks(nfiles) {
      CursorClosedForm(j);
    }
  }

  lemma IndexBit(v: Volume, disk: Image, l: Layout, r: Recipe, j: nat)
    requires NewDisk(disk, l, r) && IsMounted(v, l) && BitBlock(j) < l.ixbmblocks
    ensures Bit(disk, l.bmstblk + l.bmblocks, j) <==> j < 7
  {
    var ix := l.bmstblk + l.bmblocks;
    assert forall b: nat :: ix <= b < ix + l.ixbmblocks ==> SectionBlock(disk[b], IndexHeader(r.nfiles), b - ix, 7) by {
      assert FormatKey(0);
    }
    SectionBits(disk, ix, IndexHeader(r.nfiles), 7, l.ixbmblocks, j);
  }

  /** What is linked is marked. */
  lemma NewMarked(v: Volume, disk: Image, l: Layout, r: Recipe, m: nat)
    requires NewDisk(disk, l, r) && IsMounted(v, l) && IndexAreaOk(v, disk) && 1 <= m <= Files(v, disk) && LinkCount(InodeIn(v, disk, m)) > 0
    ensures Bit(disk, IxBitmap(v, disk), m - 1)
  {
    NewIndexHeaders(v, disk, l, r);
    NewIndexOk(v, disk, l, r);
    InodeInIndex(v, disk, m);
    InodeOnDisk(v, disk, l, r, m - 1);
  }

  /** Entry 8 is the first free one. */
  lemma EighthIsFresh(v: Volume, disk: Image, l: Layout, r: Recipe)
    requires NewDisk(disk, l, r) && IsMounted(v, l) && IndexAreaOk(v, disk) && r.nfiles < 65536
    ensures FreshInode(v, disk, 8)
  {
    NewIndexHeaders(v, disk, l, r);
    NewIndexOk(v, disk, l, r);
    assert r.nfiles >= 32 by { assert PlanKey(0); }
    InodeOnDisk(v, disk, l, r, 7);
    assert forall j: nat :: j < 7 ==> Bit(disk, IxBitmap(v, disk), j);
    assert NoneFree(v, disk, IxBitmap(v, disk), 0, 7);
  }

  /** The first file to be created gets inode 8, unless the volume was made for 65536 files: then
      no file can be created. */
  lemma FirstNewInode(v: Volume, disk: Image, l: Layout, r: Recipe)
    requires NewDisk(disk, l, r) && IsMounted(v, l)
    ensures IndexAreaOk(v, disk) && MarkedIfLinked(v, disk)
    ensures r.nfiles < 65536 ==> FreshInode(v, disk, 8)
    ensures r.nfiles == 65536 ==> Files(v, disk) == 0
  {
    NewIndexHeaders(v, disk, l, r);
    NewIndexOk(v, disk, l, r);
    forall m: nat | 1 <= m <= Files(v, disk) && LinkCount(InodeIn(v, disk, m)) > 0 ensures Bit(disk, IxBitmap(v, disk), m - 1) {
      NewMarked(v, disk, l, r, m);
    }
    if r.nfiles < 65536 { EighthIsFresh(v, disk, l, r); }
  }
}
