/** Mounting a volume, and what a new one is good for: its master directory is open, and files can be created
    on it. */
module Mounting {
  import opened Bytes
  import opened BufferCache
  import opened Volumes
  import opened FileContent
  import opened FileExtension
  import opened StreamIo
  import opened VolumeSteps
  import opened Inodes
  import opened IndexArea
  import opened Directory
  import opened FileCreation
  import opened DiskLayout
  import opened Formatter
  import opened FormatLaws
  import opened FormatIndex
  import MasterDirectory

  /** mount_disk on an image of the size that its volume id block gives: the cache is empty, the
      globals are set, and the header of the master directory is read from inode 5.  fileArea, slots
      and maps name what the caller knows about the volume. */
  method MountDisk(disk: Image, ghost fileArea: nat, ghost slots: seq<nat>, ghost maps: seq<nat>) returns (v: Volume?, h: FcbHeader?)
    requires |disk| > 1 && (Recognised(disk[1]) ==> Get24(disk[1], 32) == |disk| && Get24(disk[1], 64) < |disk|)
    ensures v == null <==> !Recognised(disk[1])
    ensures v != null ==> fresh(v) && fresh(v.cache) && fresh(v.cache.buffer) && v.cache.Valid() && v.cache.logical == disk && v.cache.pins == multiset{}
    ensures v != null ==> v.NBlocks() == |disk| && v.clfactor == disk[1][48] && v.ixblock == Get24(disk[1], 64) && v.bmblock == Get24(disk[1], 68)
    ensures v != null ==> v.fileArea == fileArea && h != null && fresh(h) && h.inode == 5 && h.slots == slots && h.maps == maps
    ensures v != null ==> Loaded(h, EntryOf(disk[Get24(disk[1], 64)], 4))
  {
    v, h := null, null;
    var b := disk[1];
    if b[..6] != VOLUME_TYPE { return; }
    if b[9] != FVER_H || b[8] != FVER_L { return; }
    var cache := new Cache(disk);
    v := new Volume(cache, b[48], Get24(b, 68), Get24(b, 64), fileArea);
    var e := EntryOf(disk[Get24(b, 64)], 4);
    h := new FcbHeader(5, IsContiguous(e), AllocatedBlocks(e), UsedBlocks(e), LastBytes(e), Pointers(e), slots, maps);
  }

  // ---------------------------------------------------------------
  // A new volume
  // ---------------------------------------------------------------

  /** All bits that a scan may reach lie on the volume. */
  lemma ScanInside(l: Layout, r: Recipe, disk: Image)
    requires NewDisk(disk, l, r)
    ensures l.bmstblk + BitBlock(l.nblocks) < l.nblocks <= MAX_BLOCKS
  {
    assert Accepted(r.nblocks, r.nfiles) && l == LayoutOf(r.nblocks, r.nfiles) by { assert PlanKey(0); }
    CursorClosedForm(l.nblocks);
    LayoutFits(r.nblocks, r.nfiles);
    if l.clfactor == 0 {
      assert l.nblocks == r.nblocks && l.bmblocks == BitmapBlocks(l.nblocks);
      assert BitBlock(l.nblocks) <= l.bmblocks;
    } else {
      AreasOrdered(l.clfactor, l.ixblocks, l.bmblocks + l.ixbmblocks);
      SizeIsPower(l.clfactor);
      assert l.ixblocks <= 8192 && l.nblocks > 131000;
    }
  }

  lemma NewVolumeValid(v: Volume, disk: Image, l: Layout, r: Recipe)
    requires NewDisk(disk, l, r) && IsMounted(v, l) && v.cache.Valid() && v.cache.logical == disk
    ensures v.Valid()
  {
    ScanInside(l, r, disk);
  }

  /** The two blocks of the master directory. */
  ghost function MasterBytes(disk: Image, l: Layout): seq<byte>
    requires l.mdstblk < |disk|
  {
    disk[l.mdstblk] + ZeroBlock()
  }

  lemma MasterLbn(v: Volume, disk: Image, l: Layout, r: Recipe) returns (slots: seq<nat>)
    requires NewDisk(disk, l, r) && IsMounted(v, l)
    ensures slots == SystemFile(l, 4).slots && Shr(0, v.clfactor) < |slots| && Shr(1, v.clfactor) < |slots|
    ensures Lbn(v, slots, 0) == l.mdstblk && Lbn(v, slots, 1) == l.mdstblk + 1 < |disk|
  {
    slots := SystemFile(l, 4).slots;
    SystemInVolume(v, disk, l, r);
    SlotsInVolume(v, l, 4);
    MasterPlaces(v, slots, l.mdstblk);
  }

  lemma MasterFlat(v: Volume, disk: Image, l: Layout, r: Recipe)
    requires NewDisk(disk, l, r) && IsMounted(v, l)
    ensures Flat(v, disk, SystemFile(l, 4).slots, 2) == MasterBytes(disk, l)
  {
    var slots := MasterLbn(v, disk, l, r);
    assert disk[l.mdstblk + 1] == ZeroBlock() by { assert FormatKey(0); }
    FlatOfTwo(v, disk, slots, l.mdstblk);
  }

  lemma FlatOfTwo(v: Volume, vol: Image, slots: seq<nat>, a: nat)
    requires a + 1 < |vol| && Shr(0, v.clfactor) < |slots| && Shr(1, v.clfactor) < |slots| && Lbn(v, slots, 0) == a && Lbn(v, slots, 1) == a + 1
    ensures var first: seq<byte> := vol[a]; Flat(v, vol, slots, 2) == first + vol[a + 1]
  {
    assert Flat(v, vol, slots, 1) == vol[a];
    assert Flat(v, vol, slots, 2) == Flat(v, vol, slots, 1) + vol[a + 1];
  }

  lemma MasterPlaces(v: Volume, slots: seq<nat>, first: nat)
    requires v.clfactor <= 3 && |slots| == Clusters(2, v.clfactor) && first == Shl(v.fileArea, v.clfactor)
    requires forall k: nat :: k < |slots| ==> slots[k] == v.fileArea + k
    ensures Shr(0, v.clfactor) < |slots| && Shr(1, v.clfactor) < |slots| && Lbn(v, slots, 0) == first && Lbn(v, slots, 1) == first + 1
  {
    TwoBlocks(v.clfactor);
    ShiftsAre(0, v.clfactor);
    ShiftsAre(1, v.clfactor);
    SizeIsPower(v.clfactor);
    if v.clfactor == 0 { ShlSucc(v.fileArea, 0); }
  }

  /** After mounting a new volume its master directory is open, with the seven system files in it,
      and all that creating and deleting files relies on is in order. */
  lemma MasterIsOpen(v: Volume, h: FcbHeader, disk: Image, l: Layout, r: Recipe)
    requires NewDisk(disk, l, r) && IsMounted(v, l) && v.cache.Valid() && v.cache.logical == disk
    requires h.slots == SystemFile(l, 4).slots && h.maps == [] && Loaded(h, EntryOf(disk[l.ixstblk], 4))
    ensures v.Valid() && DirOpen(v, h, MasterFile(l), 5, MasterBytes(disk, l)) && MarkedIfLinked(v, disk)
    ensures FreeSlot(AllEntries(MasterBytes(disk, l)), 64) == 7
    ensures r.nfiles < 65536 ==> Indexed(v, disk, MasterFile(l)) && EntriesInIndex(AllEntries(MasterBytes(disk, l)), Files(v, disk)) && FreshInode(v, disk, 8)
  {
    NewVolumeValid(v, disk, l, r);
    NewVolumeOk(v, disk, l, r);
    FirstNewInode(v, disk, l, r);
    MasterHeader(v, h, disk, l, r);
    assert MasterDirectory.IsMaster(disk[l.mdstblk]) by { assert FormatKey(0); }
    MasterDirectory.MasterEntries(disk[l.mdstblk]);
    if r.nfiles < 65536 { MasterIndexed(v, disk, l, r); }
  }

  lemma MasterHeader(v: Volume, h: FcbHeader, disk: Image, l: Layout, r: Recipe)
    requires NewDisk(disk, l, r) && IsMounted(v, l) && v.cache.Valid() && v.cache.logical == disk
    requires h.slots == SystemFile(l, 4).slots && h.maps == [] && Loaded(h, EntryOf(disk[l.ixstblk], 4))
    ensures FileOf(h) == SystemFile(l, 4) && FileOk(v, h) && ContentIs(v, h, MasterBytes(disk, l)) && h.nused == 2
  {
    assert SystemSays(l, r.nfiles, 4, EntryOf(disk[l.ixstblk], 4)) by { assert FormatKey(0); }
    MasterSound(v, disk, l, r);
    MasterFlat(v, disk, l, r);
    assert MasterBytes(disk, l)[..1024] == MasterBytes(disk, l);
  }

  lemma MasterIndexed(v: Volume, disk: Image, l: Layout, r: Recipe)
    requires NewDisk(disk, l, r) && IsMounted(v, l) && r.nfiles < 65536 && IndexAreaOk(v, disk)
    ensures Files(v, disk) >= 32 && Indexed(v, disk, MasterFile(l))
  {
    NewIndexHeaders(v, disk, l, r);
    assert r.nfiles >= 32 by { assert PlanKey(0); }
    InodeOnDisk(v, disk, l, r, 4);
  }

  method MountNew(image: Image, ghost l: Layout, ghost r: Recipe) returns (v: Volume, h: FcbHeader)
    requires NewDisk(image, l, r)
    ensures fresh(v) && fresh(v.cache) && fresh(v.cache.buffer) && fresh(h) && v.cache.Valid() && v.cache.pins == multiset{} && v.cache.logical == image
    ensures IsMounted(v, l) && v.Valid() && DirOpen(v, h, MasterFile(l), 5, MasterBytes(image, l))
  {
    MountsAs(image, l, r);
    v, h := MountDisk(image, StartOf(l, 4), SystemFile(l, 4).slots, []);
    MasterIsOpen(v, h, image, l, r);
  }
}
