/** create_disk of mkdisk.c: everything that goes onto a new volume, block by block. */
module Formatter {
  import opened Bytes
  import opened Volumes
  import opened FileContent
  import opened DiskLayout
  import opened FormatBits
  import opened Inodes
  import Directory
  import MasterDirectory

  // ---------------------------------------------------------------
  // System inodes
  // ---------------------------------------------------------------

  /** Name, extension and version of system file i, as they stand in its inode. */
  function SystemName(i: nat): (s: seq<byte>)
    ensures |s| == 14
  {
    Directory.MakeEntry(0, MasterDirectory.NameOf(i), MasterDirectory.ExtOf(i), 1)[2..]
  }

  function SystemPerm(i: nat): nat
  {
    if i < 5 then 0xCCC8 else 0xDDD8
  }

  // ---------------------------------------------------------------
  // Blocks
  // ---------------------------------------------------------------

  /** The fields in which the system inodes differ. */
  datatype SystemSpec = SystemSpec(attrib: byte, nalloc: nat, lbcount: nat, p0: nat, p1: nat)

  /** The seven system inodes, in the order INDEXF, BITMAP, BADBLK, BOOT, MASTER, CORIMG, SYSTEM. */
  function SpecOf(l: Layout, nfiles: nat, i: nat): SystemSpec
  {
    if i == 0 then SystemSpec(FA_CTG_FILE, l.ixblocks, 512, l.ixstblk, 0)
    else if i == 1 then SystemSpec(FA_CTG_FILE, l.bmblocks + l.ixbmblocks, ((nfiles + 7) / 8 + BMHDRSZ) % 512, l.bmstblk, 0)
    else if i == 2 then SystemSpec(FA_FILE, 0, 0, 0, 0)
    else if i == 3 then SystemSpec(FA_CTG_FILE, 2, 512, 0, 0)
    else if i == 4 then SystemSpec(FA_DIR, 2, 512, l.mdstblk, if l.clfactor == 0 then l.mdstblk + 1 else 0)
    else SystemSpec(FA_CTG_FILE, 0, 0, 0, 0)
  }

  /** System inode i.  The cluster factor in it is that of the volume that happens to be mounted, and
      not that of the new one. */
  function SystemEntry(l: Layout, mounted: byte, nfiles: nat, date: seq<byte>, i: nat): Inode
    requires |date| == 7 && i < 7
  {
    var t := SpecOf(l, nfiles, i);
    NewInodeEntry(ZeroEntry(), t.attrib, mounted, 1, 1, t.nalloc, t.nalloc, t.lbcount, SystemPerm(i), t.p0, t.p1, date, SystemName(i))
  }

  /** The name of system file i stands in its inode. */
  ghost predicate NameStands(e: Inode, i: nat)
    requires i < 7
  {
    var name, ext := MasterDirectory.NAMES[i], if i == 4 then "DIR" else "SYS";
    && (forall k: nat :: k < 9 ==> e[50 + k] == if k < |name| then name[k] as int else 32)
    && (forall k: nat :: k < 3 ==> e[59 + k] == ext[k] as int) && Get16(e, 62) == 1
  }

  /** System inode i is that of a directory, of a plain file or of a contiguous one, in its first use and owned
      by the system. */
  ghost predicate SystemKind(i: nat, e: Inode)
    requires i < 7
  {
    && e[2] == (if i == 4 then 0x80 else if i == 2 then 0x01 else 0x09)
    && Get16(e, 4) == 1 && e[6] == 1 && e[7] == 1 && Get16(e, 30) == (if i < 5 then 0xCCC8 else 0xDDD8) && NameStands(e, i)
  }

  /** What system inode i says, in the same order. */
  ghost predicate SystemSays(l: Layout, nfiles: nat, i: nat, e: Inode)
    requires i < 7
  {
    SystemKind(i, e) && SystemSizes(l, nfiles, i, e)
  }

  ghost predicate SystemSizes(l: Layout, nfiles: nat, i: nat, e: Inode)
  {
    if i == 0 then InodeSays(e, true, l.ixblocks, l.ixblocks, 512, l.ixstblk, 0)
    else if i == 1 then InodeSays(e, true, l.bmblocks + l.ixbmblocks, l.bmblocks + l.ixbmblocks, ((nfiles + 7) / 8 + BMHDRSZ) % 512, l.bmstblk, 0)
    else if i == 2 then InodeSays(e, false, 0, 0, 0, 0, 0)
    else if i == 3 then InodeSays(e, true, 2, 2, 512, 0, 0)
    else if i == 4 then InodeSays(e, false, 2, 2, 512, l.mdstblk, if l.clfactor == 0 then l.mdstblk + 1 else 0)
    else InodeSays(e, true, 0, 0, 0, 0, 0)
  }

  /** Block numbers and sizes fit into 24 bits. */
  predicate Fits24(l: Layout)
  {
    l.ixblocks < 0x100_0000 && l.bmblocks + l.ixbmblocks < 0x100_0000
    && l.ixstblk < 0x100_0000 && l.bmstblk < 0x100_0000 && l.mdstblk + 1 < 0x100_0000
  }

  lemma NameFields(e: Inode, i: nat)
    requires i < 7 && e[50..64] == SystemName(i)
    ensures forall k: nat :: k < 9 ==> e[50 + k] == if k < |MasterDirectory.NameOf(i)| then MasterDirectory.NameOf(i)[k] else 32
    ensures |MasterDirectory.ExtOf(i)| == 3 && (forall k: nat :: k < 3 ==> e[59 + k] == MasterDirectory.ExtOf(i)[k]) && Get16(e, 62) == 1
  {
    var d := Directory.MakeEntry(0, MasterDirectory.NameOf(i), MasterDirectory.ExtOf(i), 1);
    assert forall k: nat :: k < 14 ==> e[50 + k] == e[50..64][k] == d[2 + k];
  }

  lemma SystemNameStands(e: Inode, i: nat)
    requires i < 7 && e[50..64] == SystemName(i)
    ensures NameStands(e, i)
  {
    NameFields(e, i);
    var name, ext := MasterDirectory.NAMES[i], if i == 4 then "DIR" else "SYS";
    assert MasterDirectory.Reads(MasterDirectory.NameOf(i), name) && MasterDirectory.Reads(MasterDirectory.ExtOf(i), ext) by { MasterDirectory.MasterName(i); }
  }

  lemma SystemEntryKind(l: Layout, mounted: byte, nfiles: nat, date: seq<byte>, i: nat)
    requires |date| == 7 && i < 7
    ensures SystemKind(i, SystemEntry(l, mounted, nfiles, date, i))
  {
    var t, e := SpecOf(l, nfiles, i), SystemEntry(l, mounted, nfiles, date, i);
    assert Identified(ZeroEntry(), e, t.attrib, mounted, 1, 1, SystemPerm(i), date, SystemName(i)) by {
      NewInodeIdentified(ZeroEntry(), t.attrib, mounted, 1, 1, t.nalloc, t.nalloc, t.lbcount, SystemPerm(i), t.p0, t.p1, date, SystemName(i));
    }
    KindOf(e, t.attrib, mounted, date, i);
  }

  lemma KindOf(e: Inode, attrib: byte, mounted: byte, date: seq<byte>, i: nat)
    requires Identified(ZeroEntry(), e, attrib, mounted, 1, 1, SystemPerm(i), date, SystemName(i)) && i < 7
    requires attrib == if i == 4 then 0x80 else if i == 2 then 0x01 else 0x09
    ensures SystemKind(i, e)
  {
    SystemNameStands(e, i);
    FirstUse();
  }

  lemma FirstUse()
    ensures Get16(ZeroEntry(), 4) == 0
  {
  }

  lemma SystemEntrySizes(l: Layout, mounted: byte, nfiles: nat, date: seq<byte>, i: nat)
    requires |date| == 7 && i < 7 && Fits24(l)
    ensures SystemSizes(l, nfiles, i, SystemEntry(l, mounted, nfiles, date, i))
  {
    Attributes();
    var t := SpecOf(l, nfiles, i);
    NewInodeSays(ZeroEntry(), t.attrib, mounted, 1, 1, t.nalloc, t.nalloc, t.lbcount, SystemPerm(i), t.p0, t.p1, date, SystemName(i));
    assert InodeSays(SystemEntry(l, mounted, nfiles, date, i), And(t.attrib, 0x08) != 0, t.nalloc, t.nalloc, t.lbcount, t.p0, t.p1);
  }

  lemma SystemEntrySays(l: Layout, mounted: byte, nfiles: nat, date: seq<byte>, i: nat)
    requires |date| == 7 && i < 7 && Fits24(l)
    ensures SystemSays(l, nfiles, i, SystemEntry(l, mounted, nfiles, date, i))
  {
    SystemEntryKind(l, mounted, nfiles, date, i);
    SystemEntrySizes(l, mounted, nfiles, date, i);
  }

  function EntryOf(b: Block, i: nat): Inode
    requires i < 8
  {
    b[64 * i..64 * i + 64]
  }

  /** The first block of the index file, filled in place entry by entry. */
  method IndexBlock(l: Layout, mounted: byte, nfiles: nat, date: seq<byte>) returns (b: Block)
    requires |date| == 7 && Fits24(l)
    ensures forall i: nat :: i < 7 ==> SystemSays(l, nfiles, i, EntryOf(b, i))
    ensures EntryOf(b, 7) == ZeroEntry()
  {
    b := ZeroBlock();
    var i := 0;
    while i < 7
      invariant i <= 7
      invariant forall k: nat :: k < i ==> SystemSays(l, nfiles, k, EntryOf(b, k))
      invariant forall k: nat :: i <= k < 8 ==> EntryOf(b, k) == ZeroEntry()
    {
      ghost var b0 := b;
      SystemEntrySays(l, mounted, nfiles, date, i);
      var e := SystemEntry(l, mounted, nfiles, date, i);
      b := Patch(b, 64 * i, e);
      forall k: nat | k < 8 ensures EntryOf(b, k) == if k == i then e else EntryOf(b0, k) {
        EntryPut(b0, i, e, k);
      }
      i := i + 1;
    }
  }

  lemma EntryPut(b: Block, i: nat, e: Inode, k: nat)
    requires i < 8 && k < 8
    ensures EntryOf(Patch(b, 64 * i, e), k) == if k == i then e else EntryOf(b, k)
  {
    var r := Patch(b, 64 * i, e);
    assert k < i ==> 64 * k + 64 <= 64 * i;
    assert k > i ==> 64 * i + 64 <= 64 * k;
    assert forall o: nat :: 64 * k <= o < 64 * k + 64 && k != i ==> r[o] == b[o];
  }

  /** "VOL180" */
  const VOLUME_TYPE: seq<byte> := [86, 79, 76, 49, 56, 48]
  const FVER_L: byte := 0
  const FVER_H: byte := 5

  /** The volume id block; label, date and protection are parameters. */
  function VolumeId(l: Layout, text: Block): Block
  {
    var b0 := Patch(text, 0, VOLUME_TYPE)[8 := FVER_L][9 := FVER_H];
    var b1 := Set24(b0, 32, l.nblocks);
    var b2 := if l.clfactor < 256 then b1[48 := l.clfactor] else b1;
    Set24(Set24(Set24(b2, 64, l.ixstblk), 68, l.bmstblk), 72, 0)
  }

  /** Volume type and file system version are right. */
  predicate Recognised(b: Block)
  {
    b[..6] == VOLUME_TYPE && b[9] == FVER_H && b[8] == FVER_L
  }

  /** What mounting finds in the volume id block. */
  lemma VolumeIdFields(l: Layout, text: Block)
    requires l.nblocks < 0x100_0000 && l.ixstblk < 0x100_0000 && l.bmstblk < 0x100_0000 && l.clfactor < 256
    ensures var b := VolumeId(l, text);
      Recognised(b) && Get24(b, 32) == l.nblocks && b[48] == l.clfactor && Get24(b, 64) == l.ixstblk && Get24(b, 68) == l.bmstblk
  {
    var b0 := Patch(text, 0, VOLUME_TYPE)[8 := FVER_L][9 := FVER_H];
    var b1 := Set24(b0, 32, l.nblocks);
    var b2 := b1[48 := l.clfactor];
    Get24AfterSet24(b0, 32, l.nblocks);
    SetElsewhere(b0, 32, l.nblocks);
    assert Get24(b2, 32) == l.nblocks;
    MountFields(b2, l.ixstblk, l.bmstblk);
    FrontAfterFields(b2, l.ixstblk, l.bmstblk);
    assert b2[..6] == b0[..6] == VOLUME_TYPE;
  }

  lemma FrontAfterFields(b: Block, ix: nat, bm: nat)
    ensures var d := Set24(Set24(Set24(b, 64, ix), 68, bm), 72, 0);
      d[..6] == b[..6] && d[8] == b[8] && d[9] == b[9]
  {
    var b1 := Set24(b, 64, ix);
    var b2 := Set24(b1, 68, bm);
    SetElsewhere(b, 64, ix);
    SetElsewhere(b1, 68, bm);
    SetElsewhere(b2, 72, 0);
  }

  lemma MountFields(b: Block, ix: nat, bm: nat)
    requires ix < 0x100_0000 && bm < 0x100_0000
    ensures var d := Set24(Set24(Set24(b, 64, ix), 68, bm), 72, 0);
      Get24(d, 32) == Get24(b, 32) && d[48] == b[48] && Get24(d, 64) == ix && Get24(d, 68) == bm
  {
    var b1 := Set24(b, 64, ix);
    var b2 := Set24(b1, 68, bm);
    var b3 := Set24(b2, 72, 0);
    Get24AfterSet24(b, 64, ix);
    Get24AfterSet24(b1, 68, bm);
    SetElsewhere(b, 64, ix);
    SetElsewhere(b1, 68, bm);
    SetElsewhere(b2, 72, 0);
    SameField(b, b3, 32);
    SameField(b1, b3, 64);
    SameField(b2, b3, 68);
  }

  /** Bitmap headers. */
  function ClusterHeader(l: Layout): (h: seq<byte>)
    ensures |h| == BMHDRSZ
  {
    var h1 := Set24(ZeroHeader(), 0, l.nblocks);
    var h2 := Set24(h1, 8, l.bmblocks);
    if l.clfactor < 256 then h2[4 := l.clfactor] else h2
  }

  function IndexHeader(nfiles: nat): (h: seq<byte>)
    ensures |h| == BMHDRSZ
  {
    Set24(ZeroHeader(), 0, nfiles)
  }

  function ZeroHeader(): (h: seq<byte>)
    ensures |h| == BMHDRSZ
  {
    seq(BMHDRSZ, _ => 0)
  }

  // ---------------------------------------------------------------
  // Emission
  // ---------------------------------------------------------------

  /** fwrite of the same block n times */
  method EmitCopies(b: Block, n: nat) returns (blocks: seq<Block>)
    ensures |blocks| == n && forall i: nat :: i < n ==> blocks[i] == b
  {
    blocks := [];
    var i := 0;
    while i < n
      invariant i <= n && |blocks| == i && forall k: nat :: k < i ==> blocks[k] == b
    {
      blocks := blocks + [b];
      i := i + 1;
    }
  }

  /** Boot block, volume id, index file, and the padding between them. */
  method EmitHead(l: Layout, mounted: byte, nfiles: nat, date: seq<byte>, text: Block) returns (head: seq<Block>)
    requires |date| == 7 && l.clfactor < 256
    requires 2 <= l.ixstblk && l.ixblocks > 0 && l.ixstblk + l.ixblocks <= l.bmstblk && Fits24(l)
    ensures |head| == l.bmstblk && head[1] == VolumeId(l, text)
    ensures forall i: nat :: i < 7 ==> SystemSays(l, nfiles, i, EntryOf(head[l.ixstblk], i))
    ensures EntryOf(head[l.ixstblk], 7) == ZeroEntry()
    ensures forall b: nat :: b < |head| && b != 1 && b != l.ixstblk ==> head[b] == ZeroBlock()
  {
    head := [ZeroBlock(), VolumeId(l, text)];
    var pad := EmitCopies(ZeroBlock(), l.ixstblk - 2);
    head := head + pad;
    var ix := IndexBlock(l, mounted, nfiles, date);
    head := head + [ix];
    pad := EmitCopies(ZeroBlock(), l.ixblocks - 1);
    head := head + pad;
    pad := EmitCopies(ZeroBlock(), l.bmstblk - (l.ixstblk + l.ixblocks));
    head := head + pad;
  }

  /** Clusters of system files: blocks 0 to mdstblk + 1. */
  function SystemClusters(l: Layout): nat
  {
    Clusters(l.mdstblk + 2, l.clfactor)
  }

  /** An input for which create_disk stores behind the end of its block buffer: 65536 blocks and 32768
      files are accepted, and the index file alone takes 4096 clusters. */
  lemma OverrunInput()
    ensures Accepted(65536, 32768) && SystemClusters(LayoutOf(65536, 32768)) >= 3968
  {
    var l := LayoutOf(65536, 32768);
    ShiftsAre(65536, 0);
    assert l.clfactor == 0 && l.ixblocks == 4096;
    SplitBlock(l.mdstblk + 2, 0);
    SplitBlock(4096, 0);
  }

  /** Both bitmaps, and the padding behind them, which repeats the last block written. */
  method EmitBitmaps(l: Layout, nfiles: nat) returns (maps: seq<Block>, overrun: bool)
    requires l.bmblocks > 0 && l.ixbmblocks > 0 && l.bmstblk + l.bmblocks + l.ixbmblocks <= l.mdstblk
    ensures |maps| == l.mdstblk - l.bmstblk
    ensures forall i: nat :: i < l.bmblocks ==> SectionBlock(maps[i], ClusterHeader(l), i, SystemClusters(l))
    ensures forall i: nat :: l.bmblocks <= i < l.bmblocks + l.ixbmblocks ==> SectionBlock(maps[i], IndexHeader(nfiles), i - l.bmblocks, 7)
    ensures overrun <==> SystemClusters(l) >= 3968
  {
    var nclusters := Shr(l.mdstblk + 2, l.clfactor);
    if Low(l.mdstblk + 2, l.clfactor) != 0 { nclusters := nclusters + 1; }
    var a, b, over;
    a, overrun := EmitSection(ClusterHeader(l), nclusters, l.bmblocks);
    b, over := EmitSection(IndexHeader(nfiles), 7, l.ixbmblocks);
    overrun := overrun || over;
    var pad := EmitCopies(b[|b| - 1], l.mdstblk - (l.bmstblk + l.bmblocks + l.ixbmblocks));
    maps := a + b + pad;
  }

  /** The master directory and the unused rest. */
  method EmitTail(l: Layout, master: Block, blkcnt: nat) returns (tail: seq<Block>)
    requires blkcnt >= 2
    ensures |tail| == blkcnt && tail[0] == master && tail[1] == ZeroBlock()
    ensures forall b: nat :: 2 <= b < blkcnt ==> forall o: nat :: o < 512 ==> tail[b][o] == 0xE5
  {
    var rest := EmitCopies(seq(512, _ => 0xE5), blkcnt - 2);
    tail := [master, ZeroBlock()] + rest;
  }

  ghost predicate FormatKey(k: int)
  {
    true
  }

  /** The disk that create_disk writes. */
  ghost predicate Formatted(disk: Image, l: Layout, nfiles: nat, text: Block)
  {
    && |disk| == l.nblocks
    && 2 <= l.ixstblk && l.ixblocks > 0 && l.ixstblk + l.ixblocks <= l.bmstblk
    && l.bmstblk + l.bmblocks + l.ixbmblocks <= l.mdstblk && l.mdstblk + 2 <= l.nblocks
    && forall key {:trigger FormatKey(key)} :: Folded(key) ==>
    && disk[1] == VolumeId(l, text)
    && (forall i: nat :: i < 7 ==> SystemSays(l, nfiles, i, EntryOf(disk[l.ixstblk], i)))
    && EntryOf(disk[l.ixstblk], 7) == ZeroEntry()
    && (forall b: nat :: l.ixstblk < b < l.ixstblk + l.ixblocks ==> disk[b] == ZeroBlock())
    && (forall b: nat :: l.bmstblk <= b < l.bmstblk + l.bmblocks ==> SectionBlock(disk[b], ClusterHeader(l), b - l.bmstblk, SystemClusters(l)))
    && (forall b: nat :: l.bmstblk + l.bmblocks <= b < l.bmstblk + l.bmblocks + l.ixbmblocks ==>
          SectionBlock(disk[b], IndexHeader(nfiles), b - l.bmstblk - l.bmblocks, 7))
    && MasterDirectory.IsMaster(disk[l.mdstblk]) && disk[l.mdstblk + 1] == ZeroBlock()
    && forall b: nat :: l.mdstblk + 2 <= b < l.nblocks ==> forall o: nat :: o < 512 ==> disk[b][o] == 0xE5
  }

  /** create_disk.  For accepted arguments exactly the rounded number of blocks is written.  The
      store behind the end of the block buffer happens if and only if the system files take at
      least 3968 clusters. */
  method CreateDisk(nblocks0: nat, nfiles: nat, date: seq<byte>, text: Block, mounted: byte)
    returns (r: Outcome, disk: Image, overrun: bool)
    requires |date| == 7
    ensures r.Refused? <==> !Accepted(nblocks0, nfiles)
    ensures r.Planned? ==> r.layout == LayoutOf(nblocks0, nfiles) && Formatted(disk, r.layout, nfiles, text)
    ensures r.Planned? ==> (overrun <==> SystemClusters(r.layout) >= 3968)
  {
    r := Plan(nblocks0, nfiles);
    disk, overrun := [], false;
    if r.Planned? {
      var l := r.layout;
      LayoutFits(nblocks0, nfiles);
      var blkcnt := l.nblocks;
      var head := EmitHead(l, mounted, nfiles, date, text);
      blkcnt := blkcnt - |head|;
      var maps;
      maps, overrun := EmitBitmaps(l, nfiles);
      blkcnt := blkcnt - |maps|;
      var master := MasterDirectory.MasterBlock();
      var tail := EmitTail(l, master, blkcnt);
      disk := head + maps + tail;
      Assembled(head, maps, tail, l, nfiles, text);
    }
  }

  lemma Assembled(head: seq<Block>, maps: seq<Block>, tail: seq<Block>, l: Layout, nfiles: nat, text: Block)
    requires 2 <= l.ixstblk && l.ixblocks > 0 && l.ixstblk + l.ixblocks <= l.bmstblk
    requires l.bmstblk + l.bmblocks + l.ixbmblocks <= l.mdstblk && l.mdstblk + 2 <= l.nblocks
    requires |head| == l.bmstblk && head[1] == VolumeId(l, text)
    requires forall i: nat :: i < 7 ==> SystemSays(l, nfiles, i, EntryOf(head[l.ixstblk], i))
    requires EntryOf(head[l.ixstblk], 7) == ZeroEntry()
    requires forall b: nat :: b < |head| && b != 1 && b != l.ixstblk ==> head[b] == ZeroBlock()
    requires |maps| == l.mdstblk - l.bmstblk
    requires forall i: nat :: i < l.bmblocks ==> SectionBlock(maps[i], ClusterHeader(l), i, SystemClusters(l))
    requires forall i: nat :: l.bmblocks <= i < l.bmblocks + l.ixbmblocks ==> SectionBlock(maps[i], IndexHeader(nfiles), i - l.bmblocks, 7)
    requires |tail| == l.nblocks - l.mdstblk && MasterDirectory.IsMaster(tail[0]) && tail[1] == ZeroBlock()
    requires forall b: nat :: 2 <= b < |tail| ==> forall o: nat :: o < 512 ==> tail[b][o] == 0xE5
    ensures Formatted(head + maps + tail, l, nfiles, text)
  {
    var disk := head + maps + tail;
    assert forall b: nat :: b < |head| ==> disk[b] == head[b];
    assert forall b: nat :: l.bmstblk <= b < l.mdstblk ==> disk[b] == maps[b - l.bmstblk];
    assert forall b: nat :: l.mdstblk <= b < l.nblocks ==> disk[b] == tail[b - l.mdstblk];
  }
}
