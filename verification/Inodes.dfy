/** The index file (indexf.c): reading and writing inodes, the fields that open_file loads and
    close_file saves, and new_inode. */
module Inodes {
  import opened Bytes
  import opened BufferCache
  import opened Volumes
  import opened Bitmap
  import opened FileContent
  import opened FileExtension

  type Inode = e: seq<byte> | |e| == 64 witness seq(64, _ => 0)

  function ZeroEntry(): (z: Inode)
    ensures forall i :: 0 <= i < 64 ==> z[i] == 0
  {
    seq(64, _ => 0)
  }

  // ---------------------------------------------------------------
  // Where an inode lies
  // ---------------------------------------------------------------

  /** --num on an unsigned short: inodes are numbered from 1. */
  function Slot(num: nat): nat
    requires num < 0x1_0000
  {
    if num == 0 then 0xFFFF else num - 1
  }

  function InodeBlock(v: Volume, num: nat): nat
    requires num < 0x1_0000
  {
    v.ixblock + Slot(num) / 8
  }

  function InodeOffset(num: nat): (o: nat)
    requires num < 0x1_0000
    ensures o + 64 <= 512
  {
    Slot(num) % 8 * 64
  }

  function InodeAt(v: Volume, vol: Image, num: nat): Inode
    requires num < 0x1_0000 && InodeBlock(v, num) < |vol|
  {
    vol[InodeBlock(v, num)][InodeOffset(num)..InodeOffset(num) + 64]
  }

  method ReadInode(v: Volume, num: nat) returns (e: Inode)
    requires v.Valid() && |v.cache.pins| < NBUFFERS && num < 0x1_0000 && InodeBlock(v, num) < v.NBlocks()
    modifies v.cache, v.cache.buffer
    ensures v.Valid() && v.cache.Kept(old(v.cache.pins))
    ensures v.cache.logical == old(v.cache.logical) && v.cache.pins == old(v.cache.pins)
    ensures e == InodeAt(v, v.cache.logical, num)
  {
    var blkno, offset := v.ixblock + Slot(num) / 8, Slot(num) % 8 * 64;
    var buf := v.Get(blkno);
    var data := v.cache.Data(buf);
    e := data[offset..offset + 64];
    v.cache.ReleaseBlock(buf, blkno);
  }

  /** The volume after an inode was written. */
  function WithInode(v: Volume, vol: Image, num: nat, e: Inode): (r: Image)
    requires num < 0x1_0000 && InodeBlock(v, num) < |vol|
    ensures |r| == |vol|
  {
    vol[InodeBlock(v, num) := Patch(vol[InodeBlock(v, num)], InodeOffset(num), e)]
  }

  method WriteInode(v: Volume, num: nat, e: Inode)
    requires v.Valid() && |v.cache.pins| < NBUFFERS && num < 0x1_0000 && InodeBlock(v, num) < v.NBlocks()
    modifies v.cache, v.cache.buffer
    ensures v.Valid() && v.cache.Kept(old(v.cache.pins))
    ensures v.cache.logical == WithInode(v, old(v.cache.logical), num, e) && v.cache.pins == old(v.cache.pins)
  {
    var blkno, offset := v.ixblock + Slot(num) / 8, Slot(num) % 8 * 64;
    var buf := v.Get(blkno);
    var data := v.cache.Data(buf);
    v.cache.Store(buf, blkno, Patch(data, offset, e));
    v.cache.ReleaseBlock(buf, blkno);
  }

  /** Writing an inode changes that inode and no other. */
  lemma OtherInodesKept(v: Volume, vol: Image, num: nat, e: Inode, m: nat)
    requires num < 0x1_0000 && InodeBlock(v, num) < |vol|
    requires m < 0x1_0000 && InodeBlock(v, m) < |vol|
    ensures InodeAt(v, WithInode(v, vol, num, e), m) == if m == num then e else InodeAt(v, vol, m)
  {
    var b, o, p := vol[InodeBlock(v, num)], InodeOffset(num), InodeOffset(m);
    var r := Patch(b, o, e);
    if m == num {
      assert r[o..o + 64] == e;
    } else if InodeBlock(v, m) == InodeBlock(v, num) {
      assert Slot(m) % 8 != Slot(num) % 8;
      assert p + 64 <= o || o + 64 <= p;
      assert r[p..p + 64] == b[p..p + 64];
    }
  }

  // ---------------------------------------------------------------
  // Fields
  // ---------------------------------------------------------------

  function LinkCount(e: Inode): nat { Get16(e, 0) }

  /** inode[2] & _FA_CTG */
  predicate IsContiguous(e: Inode) { And(e[2], 0x08) != 0 }

  function AllocatedBlocks(e: Inode): nat { Get24(e, 8) }

  function UsedBlocks(e: Inode): nat { Get24(e, 11) }

  function LastBytes(e: Inode): nat { Get16(e, 14) }

  function Pointer(e: Inode, k: nat): nat
    requires k < 6
  {
    Get24(e, 32 + 3 * k)
  }

  function Pointers(e: Inode): seq<nat>
  {
    [Pointer(e, 0), Pointer(e, 1), Pointer(e, 2), Pointer(e, 3), Pointer(e, 4), Pointer(e, 5)]
  }

  /** close_file: the sizes, ... */
  function SavedSizes(e: Inode, nalloc: nat, nused: nat, lbcount: nat): Inode
  {
    Set16(Set24(Set24(e, 8, nalloc), 11, nused), 14, lbcount)
  }

  /** ... the first n pointers, ... */
  function SavedPointers(e: Inode, bmap: seq<nat>, n: nat): Inode
    requires |bmap| == 6 && n <= 6
  {
    if n == 0 then e else Set24(SavedPointers(e, bmap, n - 1), 29 + 3 * n, bmap[n - 1])
  }

  /** ... and the modification date. */
  function Saved(e: Inode, nalloc: nat, nused: nat, lbcount: nat, bmap: seq<nat>, date: seq<byte>): Inode
    requires |bmap| == 6 && |date| == 7
  {
    Patch(SavedPointers(SavedSizes(e, nalloc, nused, lbcount), bmap, 6), 23, date)
  }

  /** The bytes of a field survive what is written elsewhere. */
  lemma SameField(p: seq<byte>, q: seq<byte>, i: nat)
    requires i + 3 <= |p| == |q| && forall j: nat :: i <= j < i + 3 ==> p[j] == q[j]
    ensures Get24(p, i) == Get24(q, i) && Get16(p, i) == Get16(q, i)
  {
  }

  lemma SetElsewhere(p: seq<byte>, i: nat, x: nat)
    requires i + 3 <= |p|
    ensures forall j: nat :: j < |p| && !(i <= j < i + 3) ==> Set24(p, i, x)[j] == p[j]
    ensures forall j: nat :: j < |p| && !(i <= j < i + 2) ==> Set16(p, i, x)[j] == p[j]
  {
  }

  lemma TwoSizes(e: Inode, nalloc: nat, nused: nat)
    requires nalloc < 0x100_0000 && nused < 0x100_0000
    ensures var r := Set24(Set24(e, 8, nalloc), 11, nused);
      AllocatedBlocks(r) == nalloc && UsedBlocks(r) == nused && forall j: nat :: j < 8 || 14 <= j < 64 ==> r[j] == e[j]
  {
    var e1 := Set24(e, 8, nalloc);
    Get24AfterSet24(e, 8, nalloc);
    Get24ApartFromSet24(e1, 11, nused, 8);
    Get24AfterSet24(e1, 11, nused);
    SetElsewhere(e, 8, nalloc);
    SetElsewhere(e1, 11, nused);
  }

  lemma SavedSizesFields(e: Inode, nalloc: nat, nused: nat, lbcount: nat)
    requires nalloc < 0x100_0000 && nused < 0x100_0000 && lbcount < 0x1_0000
    ensures var r := SavedSizes(e, nalloc, nused, lbcount);
      && AllocatedBlocks(r) == nalloc && UsedBlocks(r) == nused && LastBytes(r) == lbcount
      && forall j: nat :: j < 8 || 16 <= j < 64 ==> r[j] == e[j]
  {
    var e2 := Set24(Set24(e, 8, nalloc), 11, nused);
    TwoSizes(e, nalloc, nused);
    Get16AfterSet16(e2, 14, lbcount);
    SetElsewhere(e2, 14, lbcount);
    SameField(e2, Set16(e2, 14, lbcount), 8);
    SameField(e2, Set16(e2, 14, lbcount), 11);
  }

  lemma {:induction false} SavedPointersElsewhere(e: Inode, bmap: seq<nat>, n: nat)
    requires |bmap| == 6 && n <= 6 && forall k: nat :: k < 6 ==> bmap[k] < 0x100_0000
    ensures forall j: nat :: j < 32 || 50 <= j < 64 ==> SavedPointers(e, bmap, n)[j] == e[j]
  {
    if n > 0 {
      SavedPointersElsewhere(e, bmap, n - 1);
    }
  }

  lemma {:induction false} SavedPointer(e: Inode, bmap: seq<nat>, n: nat, k: nat)
    requires |bmap| == 6 && k < n <= 6 && forall k: nat :: k < 6 ==> bmap[k] < 0x100_0000
    ensures Get24(SavedPointers(e, bmap, n), 32 + 3 * k) == bmap[k]
  {
    var p := SavedPointers(e, bmap, n - 1);
    if k == n - 1 {
      Get24AfterSet24(p, 32 + 3 * k, bmap[k]);
    } else {
      SavedPointer(e, bmap, n - 1, k);
      Get24ApartFromSet24(p, 29 + 3 * n, bmap[n - 1], 32 + 3 * k);
    }
  }

  /** Closing and opening again is lossless for every header that fits the fields, and touches
      nothing but these fields and the date. */
  lemma SavedFields(e: Inode, nalloc: nat, nused: nat, lbcount: nat, bmap: seq<nat>, date: seq<byte>)
    requires |bmap| == 6 && |date| == 7
    requires nalloc < 0x100_0000 && nused < 0x100_0000 && lbcount < 0x1_0000 && forall k: nat :: k < 6 ==> bmap[k] < 0x100_0000
    ensures var r := Saved(e, nalloc, nused, lbcount, bmap, date);
      && AllocatedBlocks(r) == nalloc && UsedBlocks(r) == nused && LastBytes(r) == lbcount && Pointers(r) == bmap
      && forall j: nat :: j < 8 || 16 <= j < 23 || 30 <= j < 32 || 50 <= j < 64 ==> r[j] == e[j]
  {
    var e1 := SavedSizes(e, nalloc, nused, lbcount);
    SavedSizesFields(e, nalloc, nused, lbcount);
    DatedFields(e1, bmap, date);
  }

  lemma {:induction false} DatedFields(e: Inode, bmap: seq<nat>, date: seq<byte>)
    requires |bmap| == 6 && |date| == 7 && forall k: nat :: k < 6 ==> bmap[k] < 0x100_0000
    ensures var r := Patch(SavedPointers(e, bmap, 6), 23, date);
      && AllocatedBlocks(r) == AllocatedBlocks(e) && UsedBlocks(r) == UsedBlocks(e) && LastBytes(r) == LastBytes(e) && Pointers(r) == bmap
      && forall j: nat :: j < 23 || 30 <= j < 32 || 50 <= j < 64 ==> r[j] == e[j]
  {
    var r := Patch(SavedPointers(e, bmap, 6), 23, date);
    SavedPointersElsewhere(e, bmap, 6);
    DatedPointers(e, bmap, date);
    assert forall j: nat :: j < 23 ==> r[j] == e[j];
    SameField(e, r, 8);
    SameField(e, r, 11);
    SameField(e, r, 14);
  }

  lemma {:induction false} DatedPointers(e: Inode, bmap: seq<nat>, date: seq<byte>)
    requires |bmap| == 6 && |date| == 7 && forall k: nat :: k < 6 ==> bmap[k] < 0x100_0000
    ensures Pointers(Patch(SavedPointers(e, bmap, 6), 23, date)) == bmap
  {
    forall k: nat | k < 6 ensures Pointer(Patch(SavedPointers(e, bmap, 6), 23, date), k) == bmap[k] {
      PointerStays(e, bmap, date, k);
    }
    PointersAre(Patch(SavedPointers(e, bmap, 6), 23, date), bmap);
  }

  lemma PointerStays(e: Inode, bmap: seq<nat>, date: seq<byte>, k: nat)
    requires |bmap| == 6 && |date| == 7 && (forall j: nat :: j < 6 ==> bmap[j] < 0x100_0000) && k < 6
    ensures Pointer(Patch(SavedPointers(e, bmap, 6), 23, date), k) == bmap[k]
  {
    SavedPointer(e, bmap, 6, k);
    DatedPointer(SavedPointers(e, bmap, 6), date, k);
  }

  lemma PointersAre(e: Inode, bmap: seq<nat>)
    requires |bmap| == 6 && forall k: nat :: k < 6 ==> Pointer(e, k) == bmap[k]
    ensures Pointers(e) == bmap
  {
  }

  lemma DatedPointer(e: Inode, date: seq<byte>, k: nat)
    requires |date| == 7 && k < 6
    ensures Pointer(Patch(e, 23, date), k) == Get24(e, 32 + 3 * k)
  {
    var r := Patch(e, 23, date);
    assert forall j: nat :: 30 <= j < 64 ==> r[j] == e[j];
    SameField(e, r, 32 + 3 * k);
  }

  // ---------------------------------------------------------------
  // set_inode, set_cdate, set_mdate, set_name
  // ---------------------------------------------------------------

  const FA_FILE: byte := 0x01
  const FA_CTG_FILE: byte := 0x09
  const FA_DIR: byte := 0x80

  lemma Attributes()
    ensures And(FA_FILE, 0x08) == 0 && And(FA_DIR, 0x08) == 0 && And(FA_CTG_FILE, 0x08) != 0
  {
    assert And(1, 1) == 1 && And(2, 2) == 2;
    assert And(4, 4) == 4;
    assert And(9, 8) == 8;
    assert And(0, 4) == 0;
    assert And(1, 8) == 2 * And(0, 4);
    assert And(8, 0) == 2 * And(4, 0) && And(4, 0) == 2 * And(2, 0) && And(2, 0) == 2 * And(1, 0) && And(1, 0) == 0;
    assert And(16, 1) == 2 * And(8, 0);
    assert And(32, 2) == 2 * And(16, 1);
    assert And(64, 4) == 2 * And(32, 2);
    assert And(128, 8) == 2 * And(64, 4);
  }

  /** set_inode with a link count of 1; the sequence number counts the uses of the entry. */
  function SetInode(e: Inode, attrib: byte, clfactor: nat, user: byte, group: byte, nalloc: nat, nused: nat, lbcount: nat, perm: nat): Inode
  {
    var e1 := Set16(e, 0, 1)[2 := attrib][3 := clfactor % 256];
    var e2 := Set16(e1, 4, Get16(e1, 4) + 1)[6 := user][7 := group];
    Set16(SavedSizes(e2, nalloc, nused, lbcount), 30, perm)
  }

  /** SET_INT24 of the first two pointers; the others are 0. */
  function WithPointers(e: Inode, p0: nat, p1: nat): Inode
  {
    Patch(Set24(Set24(e, 32, p0), 35, p1), 38, seq(12, _ => 0))
  }

  /** Both dates and the name; these fields are not looked at again. */
  function Stamped(e: Inode, date: seq<byte>, name: seq<byte>): Inode
    requires |date| == 7 && |name| == 14
  {
    Patch(Patch(Patch(e, 16, date), 23, date), 50, name)
  }

  /** An inode in use with these fields. */
  ghost predicate InodeSays(e: Inode, contiguous: bool, nalloc: nat, nused: nat, lbcount: nat, p0: nat, p1: nat)
  {
    && LinkCount(e) == 1 && IsContiguous(e) == contiguous && AllocatedBlocks(e) == nalloc && UsedBlocks(e) == nused
    && LastBytes(e) == lbcount && Pointers(e) == [p0, p1, 0, 0, 0, 0]
  }

  /** What else a new inode says: its attributes, cluster factor, owner, protection, date of creation and name;
      and the sequence number is one above the one that the entry had before. */
  ghost predicate Identified(e0: Inode, e: Inode, attrib: byte, clfactor: nat, user: byte, group: byte, perm: nat, date: seq<byte>, name: seq<byte>)
  {
    && e[2] == attrib && e[3] == clfactor % 256 && Get16(e, 4) == (Get16(e0, 4) + 1) % 0x1_0000 && e[6] == user && e[7] == group
    && Get16(e, 30) == perm % 0x1_0000 && e[16..23] == date && e[50..64] == name
  }

  lemma SetInodeIdentity(e: Inode, attrib: byte, clfactor: nat, user: byte, group: byte, nalloc: nat, nused: nat, lbcount: nat, perm: nat)
    ensures var r := SetInode(e, attrib, clfactor, user, group, nalloc, nused, lbcount, perm);
      r[2] == attrib && r[3] == clfactor % 256 && Get16(r, 4) == (Get16(e, 4) + 1) % 0x1_0000 && r[6] == user && r[7] == group && Get16(r, 30) == perm % 0x1_0000
  {
    var e1 := Set16(e, 0, 1)[2 := attrib][3 := clfactor % 256];
    var e2 := Set16(e1, 4, Get16(e1, 4) + 1)[6 := user][7 := group];
    var e3 := SavedSizes(e2, nalloc, nused, lbcount);
    LowBytes(Get16(e1, 4) + 1);
    LowBytes(perm);
    SavedSizesFront(e2, nalloc, nused, lbcount);
    assert Get16(e1, 4) == Get16(e, 4);
  }

  lemma SavedSizesFront(e: Inode, nalloc: nat, nused: nat, lbcount: nat)
    ensures forall j: nat :: j < 8 ==> SavedSizes(e, nalloc, nused, lbcount)[j] == e[j]
  {
  }

  lemma WithPointersElsewhere(e: Inode, p0: nat, p1: nat)
    ensures forall o: nat :: o < 32 || 50 <= o < 64 ==> WithPointers(e, p0, p1)[o] == e[o]
  {
    SetElsewhere(e, 32, p0);
    SetElsewhere(Set24(e, 32, p0), 35, p1);
  }

  lemma NewInodeIdentified(e: Inode, attrib: byte, clfactor: nat, user: byte, group: byte, nalloc: nat, nused: nat, lbcount: nat, perm: nat,
                           p0: nat, p1: nat, date: seq<byte>, name: seq<byte>)
    requires |date| == 7 && |name| == 14
    ensures Identified(e, NewInodeEntry(e, attrib, clfactor, user, group, nalloc, nused, lbcount, perm, p0, p1, date, name), attrib, clfactor, user, group, perm, date, name)
  {
    var e1 := SetInode(e, attrib, clfactor, user, group, nalloc, nused, lbcount, perm);
    var e2 := WithPointers(e1, p0, p1);
    var r := Stamped(e2, date, name);
    SetInodeIdentity(e, attrib, clfactor, user, group, nalloc, nused, lbcount, perm);
    WithPointersElsewhere(e1, p0, p1);
    assert forall o: nat :: o < 16 || 30 <= o < 50 ==> r[o] == e2[o];
    assert r[50..64] == name;
    assert r[16..23] == date;
  }

  lemma SetInodeFields(e: Inode, attrib: byte, clfactor: nat, user: byte, group: byte, nalloc: nat, nused: nat, lbcount: nat, perm: nat)
    requires nalloc < 0x100_0000 && nused < 0x100_0000 && lbcount < 0x1_0000
    ensures var r := SetInode(e, attrib, clfactor, user, group, nalloc, nused, lbcount, perm);
      LinkCount(r) == 1 && r[2] == attrib && AllocatedBlocks(r) == nalloc && UsedBlocks(r) == nused && LastBytes(r) == lbcount
  {
    var e1 := Set16(e, 0, 1)[2 := attrib][3 := clfactor % 256];
    var e2 := Set16(e1, 4, Get16(e1, 4) + 1)[6 := user][7 := group];
    var e3 := SavedSizes(e2, nalloc, nused, lbcount);
    SavedSizesFields(e2, nalloc, nused, lbcount);
    SetElsewhere(e3, 30, perm);
    var r := Set16(e3, 30, perm);
    SameField(e3, r, 8);
    SameField(e3, r, 11);
    SameField(e3, r, 14);
    assert e2[0] == 1 && e2[1] == 0 && e2[2] == attrib;
  }

  lemma TwoPointers(e: Inode, p0: nat, p1: nat)
    requires p0 < 0x100_0000 && p1 < 0x100_0000
    ensures var h := Set24(Set24(e, 32, p0), 35, p1);
      Get24(h, 32) == p0 && Get24(h, 35) == p1 && forall o: nat :: o < 32 ==> h[o] == e[o]
  {
    var f := Set24(e, 32, p0);
    Get24AfterSet24(e, 32, p0);
    Get24ApartFromSet24(f, 35, p1, 32);
    Get24AfterSet24(f, 35, p1);
    SetElsewhere(e, 32, p0);
    SetElsewhere(f, 35, p1);
  }

  lemma PointerFields(e: Inode, p0: nat, p1: nat)
    requires p0 < 0x100_0000 && p1 < 0x100_0000
    ensures var g := WithPointers(e, p0, p1); Pointers(g) == [p0, p1, 0, 0, 0, 0] && forall o: nat :: o < 32 ==> g[o] == e[o]
  {
    var h := Set24(Set24(e, 32, p0), 35, p1);
    var g := WithPointers(e, p0, p1);
    TwoPointers(e, p0, p1);
    assert forall o: nat :: o < 38 ==> g[o] == h[o];
    SameField(h, g, 32);
    SameField(h, g, 35);
    forall k: nat | 2 <= k < 6 ensures Pointer(g, k) == 0 {
      assert g[32 + 3 * k] == 0 && g[33 + 3 * k] == 0 && g[34 + 3 * k] == 0;
    }
  }

  /** What stands in other places does not matter for these fields. */
  lemma SameFront(e: Inode, g: Inode)
    requires forall o: nat :: o < 16 ==> g[o] == e[o]
    ensures LinkCount(g) == LinkCount(e) && g[2] == e[2] && AllocatedBlocks(g) == AllocatedBlocks(e)
    ensures UsedBlocks(g) == UsedBlocks(e) && LastBytes(g) == LastBytes(e)
  {
    SameField(e, g, 0);
    SameField(e, g, 8);
    SameField(e, g, 11);
    assert g[14] == e[14] && g[15] == e[15];
  }

  lemma StampedFields(e: Inode, date: seq<byte>, name: seq<byte>)
    requires |date| == 7 && |name| == 14
    ensures var r := Stamped(e, date, name); Pointers(r) == Pointers(e) && forall o: nat :: o < 16 ==> r[o] == e[o]
  {
    var r := Stamped(e, date, name);
    assert forall o: nat :: o < 16 || 30 <= o < 50 ==> r[o] == e[o];
    forall k: nat | k < 6 ensures Pointer(r, k) == Pointer(e, k) {
      SameField(e, r, 32 + 3 * k);
    }
  }

  /** A new inode: the fields are what was asked for. */
  function NewInodeEntry(e: Inode, attrib: byte, clfactor: nat, user: byte, group: byte, nalloc: nat, nused: nat, lbcount: nat, perm: nat,
                         p0: nat, p1: nat, date: seq<byte>, name: seq<byte>): Inode
    requires |date| == 7 && |name| == 14
  {
    Stamped(WithPointers(SetInode(e, attrib, clfactor, user, group, nalloc, nused, lbcount, perm), p0, p1), date, name)
  }

  lemma NewInodeSays(e: Inode, attrib: byte, clfactor: nat, user: byte, group: byte, nalloc: nat, nused: nat, lbcount: nat, perm: nat,
                     p0: nat, p1: nat, date: seq<byte>, name: seq<byte>)
    requires |date| == 7 && |name| == 14
    requires nalloc < 0x100_0000 && nused < 0x100_0000 && lbcount < 0x1_0000 && p0 < 0x100_0000 && p1 < 0x100_0000
    ensures InodeSays(NewInodeEntry(e, attrib, clfactor, user, group, nalloc, nused, lbcount, perm, p0, p1, date, name),
                      And(attrib, 0x08) != 0, nalloc, nused, lbcount, p0, p1)
  {
    var e1 := SetInode(e, attrib, clfactor, user, group, nalloc, nused, lbcount, perm);
    var e2 := WithPointers(e1, p0, p1);
    SetInodeFields(e, attrib, clfactor, user, group, nalloc, nused, lbcount, perm);
    PointerFields(e1, p0, p1);
    StampedFields(e2, date, name);
    SameFront(e1, Stamped(e2, date, name));
  }

  // ---------------------------------------------------------------
  // open_file and close_file
  // ---------------------------------------------------------------

  /** The header says what the inode says. */
  ghost predicate Loaded(h: FcbHeader, e: Inode)
    reads h
  {
    && h.contiguous == IsContiguous(e) && h.nalloc == AllocatedBlocks(e) && h.nused == UsedBlocks(e)
    && h.lbcount == LastBytes(e) && h.bmap == Pointers(e)
  }

  /** The header of an inode in use, as open_file loads it; slots and maps name what the pointers
      lead to. */
  method LoadHeader(v: Volume, ino: nat, ghost slots: seq<nat>, ghost maps: seq<nat>) returns (h: FcbHeader?)
    requires v.Valid() && |v.cache.pins| < NBUFFERS && ino < 0x1_0000 && InodeBlock(v, ino) < v.NBlocks()
    modifies v.cache, v.cache.buffer
    ensures v.Valid() && v.cache.Kept(old(v.cache.pins))
    ensures v.cache.logical == old(v.cache.logical) && v.cache.pins == old(v.cache.pins)
    ensures h == null <==> ino == 0 || LinkCount(InodeAt(v, v.cache.logical, ino)) == 0
    ensures h != null ==> fresh(h) && Loaded(h, InodeAt(v, v.cache.logical, ino)) && h.inode == ino && h.slots == slots && h.maps == maps
  {
    if ino == 0 { return null; }
    var e := ReadInode(v, ino);
    if LinkCount(e) == 0 { return null; }
    h := new FcbHeader(ino, IsContiguous(e), AllocatedBlocks(e), UsedBlocks(e), LastBytes(e), Pointers(e), slots, maps);
  }

  /** close_file; the date is the clock's. */
  method CloseFile(v: Volume, h: FcbHeader, date: seq<byte>) returns (ok: bool)
    requires v.Valid() && |v.cache.pins| < NBUFFERS && h.inode < 0x1_0000 && InodeBlock(v, h.inode) < v.NBlocks()
    requires |h.bmap| == 6 && |date| == 7
    modifies v.cache, v.cache.buffer
    ensures v.Valid() && v.cache.Kept(old(v.cache.pins)) && v.cache.pins == old(v.cache.pins)
    ensures ok <==> h.inode != 0 && LinkCount(InodeAt(v, old(v.cache.logical), h.inode)) != 0
    ensures v.cache.logical == if !ok then old(v.cache.logical) else
      WithInode(v, old(v.cache.logical), h.inode, Saved(InodeAt(v, old(v.cache.logical), h.inode), h.nalloc, h.nused, h.lbcount, h.bmap, date))
  {
    if h.inode == 0 { return false; }
    var e := ReadInode(v, h.inode);
    if LinkCount(e) == 0 { return false; }
    WriteInode(v, h.inode, Saved(e, h.nalloc, h.nused, h.lbcount, h.bmap, date));
    return true;
  }

  /** After close_file, the inode leads to exactly this header again; whether the file is
      contiguous is not rewritten. */
  lemma ClosedThenLoaded(v: Volume, vol: Image, h: FcbHeader, date: seq<byte>)
    requires h.inode < 0x1_0000 && InodeBlock(v, h.inode) < |vol| && |h.bmap| == 6 && |date| == 7
    requires h.nalloc < 0x100_0000 && h.nused < 0x100_0000 && h.lbcount < 0x1_0000 && forall k: nat :: k < 6 ==> h.bmap[k] < 0x100_0000
    requires h.contiguous == IsContiguous(InodeAt(v, vol, h.inode))
    ensures var e := InodeAt(v, vol, h.inode);
      var r := InodeAt(v, WithInode(v, vol, h.inode, Saved(e, h.nalloc, h.nused, h.lbcount, h.bmap, date)), h.inode);
      Loaded(h, r) && LinkCount(r) == LinkCount(e)
  {
    var e := InodeAt(v, vol, h.inode);
    var r := Saved(e, h.nalloc, h.nused, h.lbcount, h.bmap, date);
    OtherInodesKept(v, vol, h.inode, r, h.inode);
    SavedFields(e, h.nalloc, h.nused, h.lbcount, h.bmap, date);
  }

  // ---------------------------------------------------------------
  // new_inode
  // ---------------------------------------------------------------

  /** The index file lies below the bitmaps, and the index bitmap above the cluster bitmap. */
  ghost predicate IndexPlaced(v: Volume, vol: Image)
  {
    && IndexBitmapOk(vol, v.bmblock) && IndexBitmap(vol, v.bmblock) > v.bmblock
    && v.ixblock + (NFiles(vol, v.bmblock) + 7) / 8 <= v.bmblock
  }

  ghost predicate InodeKey(k: int)
  {
    true
  }

  /** The block, within the index bitmap, of the last of k bits. */
  function LastOf(k: nat): nat
  {
    if k == 0 then 0 else BitBlock(k - 1)
  }

  /** The first k of n index entries are marked, and nothing else has changed. */
  ghost predicate MarkedUpTo(vol0: Image, vol: Image, ix: nat, k: nat)
  {
    && |vol| == |vol0|
    && forall key {:trigger InodeKey(key)} :: Folded(key) ==>
    && (forall b: nat :: b < ix && b < |vol| ==> vol[b] == vol0[b])
    && (forall b: nat :: ix + LastOf(k) < b < |vol| ==> vol[b] == vol0[b])
    && (ix < |vol| ==> forall o: nat :: o < BMHDRSZ ==> vol[ix][o] == vol0[ix][o])
    && forall j: nat :: Bit(vol, ix, j) == ((j < k && ix + BitBlock(j) < |vol|) || Bit(vol0, ix, j))
  }

  lemma MarkedNothing(vol: Image, ix: nat)
    ensures MarkedUpTo(vol, vol, ix, 0)
  {
  }

  lemma {:induction false} MarkedBits(vol0: Image, vol: Image, ix: nat, k: nat, i: nat, j: nat)
    requires k <= i && ix + BitBlock(i) < |vol| == |vol0| && (k <= j < i ==> Bit(vol, ix, j))
    requires Bit(vol, ix, j) == ((j < k && ix + BitBlock(j) < |vol|) || Bit(vol0, ix, j))
    ensures Bit(WithBit(vol, ix, i, true), ix, j) == ((j < i + 1 && ix + BitBlock(j) < |vol|) || Bit(vol0, ix, j))
  {
    WithBitBit(vol, ix, i, true, j);
  }

  lemma MarkedFrame(vol0: Image, vol: Image, ix: nat, k: nat, i: nat)
    requires MarkedUpTo(vol0, vol, ix, k) && k <= i && ix + BitBlock(i) < |vol|
    ensures var vol' := WithBit(vol, ix, i, true);
      && (forall b: nat :: b < ix && b < |vol'| ==> vol'[b] == vol0[b])
      && (forall b: nat :: ix + BitBlock(i) < b < |vol'| ==> vol'[b] == vol0[b])
      && (ix < |vol'| ==> forall o: nat :: o < BMHDRSZ ==> vol'[ix][o] == vol0[ix][o])
  {
    assert InodeKey(0);
    AddressMonotone(if k == 0 then 0 else k - 1, i);
    CursorClosedForm(i);
    CursorClosedForm(0);
  }

  /** The lowest clear bit is marked: one more step of the search. */
  lemma {:induction false} MarkedNext(vol0: Image, vol: Image, ix: nat, k: nat, n: nat)
    requires MarkedUpTo(vol0, vol, ix, k) && ix + BitBlock(n) < |vol| && k <= n
    requires FirstClear(vol, ix, 0, n) < n
    ensures var i := FirstClear(vol, ix, 0, n);
      && k <= i && !Bit(vol0, ix, i) && (forall j: nat :: k <= j < i ==> Bit(vol0, ix, j))
      && MarkedUpTo(vol0, WithBit(vol, ix, i, true), ix, i + 1)
  {
    var i := FirstClear(vol, ix, 0, n);
    FirstClearIsLeast(vol, ix, 0, n);
    AddressMonotone(i, n);
    assert k <= i && !Bit(vol0, ix, i) && forall j: nat :: k <= j < i ==> Bit(vol0, ix, j) by {
      assert InodeKey(0);
    }
    MarkedFrame(vol0, vol, ix, k, i);
    assert LastOf(i + 1) == BitBlock(i);
    forall j: nat ensures Bit(WithBit(vol, ix, i, true), ix, j) == ((j < i + 1 && ix + BitBlock(j) < |vol|) || Bit(vol0, ix, j)) {
      assert Bit(vol, ix, j) == ((j < k && ix + BitBlock(j) < |vol|) || Bit(vol0, ix, j)) by { assert InodeKey(0); }
      MarkedBits(vol0, vol, ix, k, i, j);
    }
  }

  lemma {:induction false} AllMarked(vol0: Image, vol: Image, ix: nat, k: nat, n: nat)
    requires MarkedUpTo(vol0, vol, ix, k) && ix + BitBlock(n) < |vol| && k <= n
    requires FirstClear(vol, ix, 0, n) >= n
    ensures forall j: nat :: k <= j < n ==> Bit(vol0, ix, j)
  {
    assert InodeKey(0);
    FirstClearIsLeast(vol, ix, 0, n);
  }

  /** The index file and the bitmap headers are as they were. */
  lemma IndexStillPlaced(v: Volume, vol0: Image, vol: Image, k: nat)
    requires IndexPlaced(v, vol0) && MarkedUpTo(vol0, vol, IndexBitmap(vol0, v.bmblock), k)
    ensures IndexPlaced(v, vol) && IndexBitmap(vol, v.bmblock) == IndexBitmap(vol0, v.bmblock)
    ensures NFiles(vol, v.bmblock) == NFiles(vol0, v.bmblock)
    ensures forall num: nat :: 1 <= num <= NFiles(vol0, v.bmblock) ==>
      InodeBlock(v, num) < |vol| == |vol0| && InodeAt(v, vol, num) == InodeAt(v, vol0, num)
  {
    assert InodeKey(0);
    var ix := IndexBitmap(vol0, v.bmblock);
    assert vol[ix][0] == vol0[ix][0] && vol[ix][1] == vol0[ix][1];
  }

  /** No entry from position "from" up to position "to" is free: marked, or still linked. */
  ghost predicate NoneFree(v: Volume, vol: Image, ix: nat, from: nat, to: nat)
  {
    forall key {:trigger InodeKey(key)} :: Folded(key) ==>
    forall j: nat :: from <= j < to && j + 1 < 0x1_0000 && InodeBlock(v, j + 1) < |vol| ==> Bit(vol, ix, j) || LinkCount(InodeAt(v, vol, j + 1)) != 0
  }

  lemma NothingFree(v: Volume, vol: Image, ix: nat)
    ensures NoneFree(v, vol, ix, 0, 0)
  {
  }

  lemma NoneFreeUpTo(v: Volume, vol: Image, ix: nat, k: nat, i: nat)
    requires NoneFree(v, vol, ix, 0, k) && k <= i && forall j: nat :: k <= j < i ==> Bit(vol, ix, j)
    ensures NoneFree(v, vol, ix, 0, i)
    ensures i + 1 < 0x1_0000 && InodeBlock(v, i + 1) < |vol| && LinkCount(InodeAt(v, vol, i + 1)) != 0 ==> NoneFree(v, vol, ix, 0, i + 1)
  {
    assert InodeKey(0);
  }

  /** What the next turn of the search finds. */
  lemma {:induction false} NextEntry(v: Volume, vol0: Image, vol: Image, k: nat)
    requires IndexPlaced(v, vol0) && |vol0| == v.NBlocks()
    requires var ix, n := IndexBitmap(vol0, v.bmblock), NFiles(vol0, v.bmblock);
      k <= n && MarkedUpTo(vol0, vol, ix, k) && NoneFree(v, vol0, ix, 0, k)
    ensures IndexPlaced(v, vol) && IndexBitmap(vol, v.bmblock) == IndexBitmap(vol0, v.bmblock) && NFiles(vol, v.bmblock) == NFiles(vol0, v.bmblock)
    ensures var ix, n := IndexBitmap(vol0, v.bmblock), NFiles(vol0, v.bmblock);
      var i := FirstClear(vol, ix, 0, n);
      if i < n then
        var vol' := WithBit(vol, ix, i, true);
        && k <= i && !Bit(vol0, ix, i) && MarkedUpTo(vol0, vol', ix, i + 1) && NoneFree(v, vol0, ix, 0, i)
        && InodeBlock(v, i + 1) < |vol'| == |vol0| && InodeAt(v, vol', i + 1) == InodeAt(v, vol0, i + 1)
        && (LinkCount(InodeAt(v, vol0, i + 1)) != 0 ==> NoneFree(v, vol0, ix, 0, i + 1))
      else
        NoneFree(v, vol0, ix, 0, n) && forall j: nat :: k <= j < n ==> Bit(vol0, ix, j)
  {
    var ix, n := IndexBitmap(vol0, v.bmblock), NFiles(vol0, v.bmblock);
    var i := FirstClear(vol, ix, 0, n);
    IndexStillPlaced(v, vol0, vol, k);
    if i < n {
      MarkedNext(vol0, vol, ix, k, n);
      IndexStillPlaced(v, vol0, WithBit(vol, ix, i, true), i + 1);
      NoneFreeUpTo(v, vol0, ix, k, i);
    } else {
      AllMarked(vol0, vol, ix, k, n);
      NoneFreeUpTo(v, vol0, ix, k, n);
    }
  }

  /** Where the search of new_inode stands: it goes on, has found an entry, or has found none. */
  ghost predicate Searched(v: Volume, vol0: Image, vol: Image, more: bool, ino: nat, k: nat)
    requires IndexPlaced(v, vol0)
  {
    var ix, n := IndexBitmap(vol0, v.bmblock), NFiles(vol0, v.bmblock);
    if more then k <= n && MarkedUpTo(vol0, vol, ix, k) && NoneFree(v, vol0, ix, 0, k)
    else if ino > 0 then
      && ino <= n && MarkedUpTo(vol0, vol, ix, ino) && NoneFree(v, vol0, ix, 0, ino - 1)
      && !Bit(vol0, ix, ino - 1) && InodeBlock(v, ino) < |vol0| && LinkCount(InodeAt(v, vol0, ino)) == 0
    else
      NoneFree(v, vol0, ix, 0, n) && k <= n && MarkedUpTo(vol0, vol, ix, k) && forall j: nat :: k <= j < n ==> Bit(vol0, ix, j)
  }

  /** What one turn has come to. */
  lemma {:induction false} TurnSearched(v: Volume, vol0: Image, vol: Image, k: nat, vol': Image, ino: nat)
    requires IndexPlaced(v, vol0) && |vol0| == v.NBlocks() && Searched(v, vol0, vol, true, 0, k)
    requires var ix, n := IndexBitmap(vol0, v.bmblock), NFiles(vol0, v.bmblock);
      var i := FirstClear(vol, ix, 0, n);
      if i < n then ino == i + 1 && vol' == WithBit(vol, ix, i, true) else ino == 0 && vol' == vol
    ensures ino == 0 ==> Searched(v, vol0, vol', false, 0, k)
    ensures ino > 0 ==> ino <= NFiles(vol0, v.bmblock) && k < ino && InodeBlock(v, ino) < |vol'| && InodeAt(v, vol', ino) == InodeAt(v, vol0, ino)
    ensures ino > 0 ==> Searched(v, vol0, vol', LinkCount(InodeAt(v, vol0, ino)) != 0, ino, ino)
  {
    NextEntry(v, vol0, vol, k);
  }

  /** One turn of the search of new_inode. */
  method NewInodeTurn(v: Volume, ghost vol0: Image, ghost k: nat, ghost pins: multiset<nat>) returns (more: bool, ino: nat, ghost k': nat)
    requires v.Valid() && |v.cache.pins| < NBUFFERS && v.cache.pins == pins && IndexPlaced(v, vol0) && |vol0| == v.NBlocks()
    requires Searched(v, vol0, v.cache.logical, true, 0, k)
    modifies v.cache, v.cache.buffer
    ensures v.Valid() && v.cache.Kept(pins) && Searched(v, vol0, v.cache.logical, more, ino, k') && (more ==> k < k')
    ensures v.cache.pins ==
      if more || ino > 0 then pins else pins + multiset{IndexBitmap(vol0, v.bmblock) + BitBlock(NFiles(vol0, v.bmblock))}
  {
    ghost var vol := v.cache.logical;
    NextEntry(v, vol0, vol, k);
    ino := AllocInode(v);
    TurnSearched(v, vol0, vol, k, v.cache.logical, ino);
    k' := if ino == 0 then k else ino;
    more := false;
    if ino > 0 {
      assert v.cache.Kept(pins);
      var e := ReadInode(v, ino);
      more := LinkCount(e) != 0;
    }
  }

  /** new_inode: the first index entry that is neither marked nor linked; it and all before it
      are marked afterwards.  The search ends because every turn marks a clear bit. */
  method NewInode(v: Volume) returns (ino: nat, ghost k: nat)
    requires v.Valid() && |v.cache.pins| < NBUFFERS && IndexPlaced(v, v.cache.logical)
    modifies v.cache, v.cache.buffer
    ensures v.Valid() && v.cache.Kept(old(v.cache.pins))
    ensures var vol0 := old(v.cache.logical);
      var ix, n := IndexBitmap(vol0, v.bmblock), NFiles(vol0, v.bmblock);
      if ino > 0 then
        && ino <= n && !Bit(vol0, ix, ino - 1) && LinkCount(InodeAt(v, vol0, ino)) == 0 && NoneFree(v, vol0, ix, 0, ino - 1)
        && MarkedUpTo(vol0, v.cache.logical, ix, ino) && v.cache.pins == old(v.cache.pins)
      else
        && NoneFree(v, vol0, ix, 0, n)
        && k <= n && MarkedUpTo(vol0, v.cache.logical, ix, k) && (forall j: nat :: k <= j < n ==> Bit(vol0, ix, j))
        && v.cache.pins == old(v.cache.pins) + multiset{ix + BitBlock(n)}
  {
    ghost var vol0, pins := v.cache.logical, v.cache.pins;
    ghost var ix, n := IndexBitmap(vol0, v.bmblock), NFiles(vol0, v.bmblock);
    MarkedNothing(vol0, ix);
    NothingFree(v, vol0, ix);
    var more := true;
    ino, k := 0, 0;
    while more
      invariant v.Valid() && v.cache.Kept(pins) && Searched(v, vol0, v.cache.logical, more, ino, k)
      invariant v.cache.pins == if more || ino > 0 then pins else pins + multiset{ix + BitBlock(n)}
      decreases more, n - k
    {
      more, ino, k := NewInodeTurn(v, vol0, k, pins);
    }
  }
}
