/** The first check of a new volume: it finds nothing, unless its count of inodes wraps around to 0. */
module FirstCheck {
  import opened Bytes
  import opened Volumes
  import opened Allocation
  import opened FileExtension
  import opened VolumeRuns
  import opened CheckerClaims
  import opened Checker
  import opened CheckerCompare
  import opened CheckerLaws
  import opened CheckerRuns
  import opened DiskLayout
  import opened Formatter
  import opened FormatLaws
  import opened FileCreation
  import opened Mounting

  /** What check_alloc_map is called with after check_index_file of a new volume. */
  lemma NewVolumeSizes(v: Volume, disk: Image, l: Layout, r: Recipe)
    requires NewDisk(disk, l, r) && IsMounted(v, l)
    ensures r.nfiles <= 65528 ==> 7 <= 8 * l.ixblocks < 0x1_0000
    ensures InodeCount(l.ixblocks) == if r.nfiles <= 65528 then 8 * l.ixblocks else 0
    ensures l.clfactor <= 3 && v.bmblock + l.bmblocks <= v.NBlocks() && l.bmblocks == ((v.NClusters() + 7) / 8 + BMHDRSZ + 511) / 512
  {
    Regions(disk, r, l);
    WholeVolume(v, l, r.nblocks);
    assert Accepted(r.nblocks, r.nfiles) && l == LayoutOf(r.nblocks, r.nfiles) by { assert PlanKey(0); }
    IndexBlocks(r, l);
    BitmapInside(v, disk, l, r);
  }

  lemma IndexBlocks(r: Recipe, l: Layout)
    requires Accepted(r.nblocks, r.nfiles) && l == LayoutOf(r.nblocks, r.nfiles)
    ensures r.nfiles <= 65528 ==> 7 <= 8 * l.ixblocks < 0x1_0000
    ensures InodeCount(l.ixblocks) == if r.nfiles <= 65528 then 8 * l.ixblocks else 0
  {
    assert l.ixblocks == (r.nfiles + 7) / 8;
    if r.nfiles > 65528 { assert l.ixblocks == 8192; }
  }

  lemma BitmapInside(v: Volume, disk: Image, l: Layout, r: Recipe)
    requires NewDisk(disk, l, r) && IsMounted(v, l)
    ensures v.bmblock + l.bmblocks <= v.NBlocks()
  {
    assert l == LayoutOf(r.nblocks, r.nfiles) && Accepted(r.nblocks, r.nfiles) by { assert PlanKey(0); }
  }

  /** The files that the check looks at. */
  ghost function FilesSeen(l: Layout, r: Recipe): map<nat, File>
  {
    if r.nfiles <= 65528 then SystemMap(l) else map[]
  }

  /** What the check needs to know ... */
  lemma ReadyForCheck(v: Volume, disk: Image, l: Layout, r: Recipe)
    requires NewDisk(disk, l, r) && IsMounted(v, l)
    ensures IndexIs(v, disk, FilesSeen(l, r), InodeCount(l.ixblocks)) && v.clfactor < 256
    ensures v.bmblock + l.bmblocks <= v.NBlocks() && l.bmblocks == ((v.NClusters() + 7) / 8 + BMHDRSZ + 511) / 512
  {
    NewVolumeSizes(v, disk, l, r);
    if r.nfiles <= 65528 { NewVolumeChecks(v, disk, l, r, 8 * l.ixblocks); }
  }

  /** ... and what it finds. */
  lemma WhatIsFound(v: Volume, disk: Image, l: Layout, r: Recipe, bm: seq<byte>, vol: Image, errs: nat)
    requires NewDisk(disk, l, r) && IsMounted(v, l) && |bm| == (v.NClusters() + 7) / 8 + BMHDRSZ
    requires Marked(bm) == Elems(IndexClaims(v, FilesSeen(l, r), InodeCount(l.ixblocks))) && Corrected(v, disk, vol, bm, l.bmblocks)
    requires errs == Repeats({}, IndexClaims(v, FilesSeen(l, r), InodeCount(l.ixblocks))) + TotalDiffs(v, disk, vol, l.bmblocks)
    ensures errs == if r.nfiles <= 65528 then 0 else SystemClusters(l)
    ensures r.nfiles <= 65528 ==> vol == disk
  {
    NewVolumeSizes(v, disk, l, r);
    if r.nfiles <= 65528 {
      NewVolumePasses(v, disk, l, r, 8 * l.ixblocks, bm, vol);
    } else {
      assert IndexClaims(v, FilesSeen(l, r), 0) == [];
      AllUnmarked(v, disk, l, r, bm, vol);
    }
  }

  /** With no inode looked at, every marked bit differs. */
  lemma AllUnmarked(v: Volume, disk: Image, l: Layout, r: Recipe, bm: seq<byte>, vol: Image)
    requires NewDisk(disk, l, r) && IsMounted(v, l) && |bm| == (v.NClusters() + 7) / 8 + BMHDRSZ && Marked(bm) == {} && Corrected(v, disk, vol, bm, l.bmblocks)
    ensures TotalDiffs(v, disk, vol, l.bmblocks) == SystemClusters(l)
  {
    NewVolumeSizes(v, disk, l, r);
    SystemInVolume(v, disk, l, r);
    DiffsCounted(v, disk, vol, bm, l.bmblocks, l.bmblocks);
    var m := 8 * (512 * l.bmblocks - BMHDRSZ);
    var d := Differing(v, disk, bm, m);
    forall c: nat | c < m ensures Differs(v, disk, bm, c) <==> c < SystemClusters(l) {
      CursorClosedForm(c);
      NewBits(v, disk, l, r, c);
    }
    BoundedSize(d, SystemClusters(l));
    InitialSegmentSize(d, SystemClusters(l));
  }

  /** The sizes that check_index_file computes. */
  method CheckSizes(ixblks: nat, nclusters: nat) returns (inodes: nat, bmsize: nat, bmblks: nat)
    ensures inodes == InodeCount(ixblks) && bmsize == (nclusters + 7) / 8 + BMHDRSZ && bmblks == (bmsize + 511) / 512
  {
    inodes := ixblks * 8 % 0x1_0000;
    bmsize := (nclusters + 7) / 8 + BMHDRSZ;
    bmblks := (bmsize + 511) / 512;
  }

  /** The first check of a new volume: with 8192 index blocks it looks at no inode, reports every marked
      cluster, and unmarks all of them. */
  method CheckNew(v: Volume, ixblks: nat, ghost disk: Image, ghost l: Layout, ghost r: Recipe) returns (errs: nat)
    requires NewDisk(disk, l, r) && IsMounted(v, l) && v.Valid() && v.cache.logical == disk && v.cache.pins == multiset{} && ixblks == l.ixblocks
    modifies v.cache, v.cache.buffer
    ensures v.Valid() && v.cache.pins == multiset{} && errs == if r.nfiles <= 65528 then 0 else SystemClusters(l)
    ensures if r.nfiles <= 65528 then v.cache.logical == disk else Used(v, v.cache.logical) == {}
  {
    ReadyForCheck(v, disk, l, r);
    var inodes, bmsize, bmblks := CheckSizes(ixblks, v.NClusters());
    ghost var bm;
    errs, bm := CheckAllocMap(v, inodes, bmsize, bmblks, FilesSeen(l, r));
    WhatIsFound(v, disk, l, r, bm, v.cache.logical, errs);
    NoneLeft(v, disk, l, r, v.cache.logical);
  }

  lemma NoneLeft(v: Volume, disk: Image, l: Layout, r: Recipe, vol: Image)
    requires NewDisk(disk, l, r) && IsMounted(v, l)
    requires forall c: nat :: c in Used(v, vol) <==> c < v.NClusters() && c in Elems(IndexClaims(v, FilesSeen(l, r), InodeCount(l.ixblocks)))
    ensures r.nfiles > 65528 ==> Used(v, vol) == {}
  {
    NewVolumeSizes(v, disk, l, r);
    if r.nfiles > 65528 { assert IndexClaims(v, FilesSeen(l, r), 0) == []; }
  }

  /** A disk is made, mounted and checked: it is recognised, its master directory is open, and the check
      reports nothing and changes nothing if and only if the disk was made for at most 65528 files.  What the
      byte that create_disk stores behind its buffer for very many system clusters hits is not looked at. */
  method FormatAndCheck(nblocks: nat, nfiles: nat, date: seq<byte>, text: Block, mounted: byte)
    returns (o: Outcome, v: Volume?, h: FcbHeader?, errs: nat, ghost disk: Image)
    requires |date| == 7
    ensures o.Refused? <==> !Accepted(nblocks, nfiles)
    ensures o.Planned? ==> v != null && h != null && v.Valid() && NewDisk(disk, o.layout, Recipe(nblocks, nfiles, text)) && IsMounted(v, o.layout)
    ensures o.Planned? ==> errs == (if nfiles <= 65528 then 0 else SystemClusters(o.layout)) && (errs == 0 <==> nfiles <= 65528)
    ensures o.Planned? && nfiles <= 65528 ==> v.cache.logical == disk && DirOpen(v, h, MasterFile(o.layout), 5, MasterBytes(disk, o.layout))
    ensures o.Planned? && nfiles > 65528 ==> Used(v, v.cache.logical) == {}
  {
    var image, overrun;
    o, image, overrun := CreateDisk(nblocks, nfiles, date, text, mounted);
    disk, v, h, errs := image, null, null, 0;
    if o.Refused? { return; }
    var l := o.layout;
    ghost var r := Recipe(nblocks, nfiles, text);
    v, h := MountNew(image, l, r);
    errs := CheckNew(v, l.ixblocks, image, l, r);
    SystemInVolume(v, disk, l, r);
  }
}
