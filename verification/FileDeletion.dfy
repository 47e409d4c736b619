/** delete_file of fileio.c: the clusters, the directory entry, the inode and its bit. */
module FileDeletion {
  import opened Bytes
  import opened BufferCache
  import opened Volumes
  import opened Bitmap
  import opened FileExtension
  import opened StreamLaws
  import opened VolumeRuns
  import opened VolumeSteps
  import opened Inodes
  import opened IndexArea
  import opened VolumeHistory
  import opened Directory
  import opened DirectoryFiles
  import opened FileCreation
  import opened Checker

  /** What the entry leads to is a closed file: its inode says what the file is. */
  ghost predicate Closed(v: Volume, vol: Image, files: map<nat, File>, di: nat, ino: nat)
    requires IndexAreaOk(v, vol)
  {
    ino <= Files(v, vol) && (LinkCount(InodeIn(v, vol, ino)) > 0 ==> ino in files && ino != di && Agrees(files[ino], InodeIn(v, vol, ino)))
  }

  /** Compared with vol0, inode ino is e, and its bit is clear. */
  ghost predicate IndexFreed(v: Volume, vol0: Image, vol: Image, ino: nat, e: Inode)
    requires IndexAreaOk(v, vol0)
  {
    && |vol| == |vol0| && BitmapFrame(v, vol0, vol) && IndexAreaOk(v, vol) && IxBitmap(v, vol) == IxBitmap(v, vol0) && Files(v, vol) == Files(v, vol0)
    && forall key {:trigger IndexKey(key)} :: Folded(key) ==>
    forall m: nat {:trigger InodeBlock(v, m)} :: 1 <= m <= Files(v, vol0) ==>
      && InodeAt(v, vol, m) == (if m == ino then e else InodeAt(v, vol0, m))
      && Bit(vol, IxBitmap(v, vol0), m - 1) == (m != ino && Bit(vol0, IxBitmap(v, vol0), m - 1))
  }

  /** Writing the inode and clearing its bit. */
  lemma {:induction false} IndexEntryFreed(v: Volume, vol0: Image, vol: Image, ino: nat, e: Inode)
    requires IndexAreaOk(v, vol0) && IndexKept(v, vol0, vol) && 1 <= ino <= Files(v, vol0)
    ensures IndexAreaOk(v, vol) && IxBitmap(v, vol) == IxBitmap(v, vol0) && InodeBlock(v, ino) < |vol|
    ensures var vol1 := WithInode(v, vol, ino, e);
      && IndexWritten(v, vol, vol1) && IndexAreaOk(v, vol1) && IxBitmap(v, vol1) == IxBitmap(v, vol0) && Files(v, vol1) == Files(v, vol0)
      && IndexWritten(v, vol1, WithBit(vol1, IxBitmap(v, vol0), ino - 1, false))
      && IndexFreed(v, vol0, WithBit(vol1, IxBitmap(v, vol0), ino - 1, false), ino, e)
  {
    KeptKeepsPlaces(v, vol0, vol);
    InodeWritten(v, vol, ino, e);
    var vol1 := WithInode(v, vol, ino, e);
    WrittenKeepsPlaces(v, vol, vol1);
    BitWritten(v, vol1, ino, false);
    var vol2 := WithBit(vol1, IxBitmap(v, vol0), ino - 1, false);
    WrittenKeepsPlaces(v, vol1, vol2);
    FreedFrame(v, vol0, vol, vol1, vol2);
    forall m: nat | 1 <= m <= Files(v, vol0)
      ensures InodeAt(v, vol2, m) == if m == ino then e else InodeAt(v, vol0, m)
      ensures Bit(vol2, IxBitmap(v, vol0), m - 1) == (m != ino && Bit(vol0, IxBitmap(v, vol0), m - 1))
    {
      KeptInodes(v, vol0, vol, m);
      WrittenInode(v, vol, ino, e, m);
      WrittenBit(v, vol1, ino, false, m);
    }
  }

  lemma FreedFrame(v: Volume, vol0: Image, vol: Image, vol1: Image, vol2: Image)
    requires IndexAreaOk(v, vol0) && IndexKept(v, vol0, vol) && IndexAreaOk(v, vol) && IndexWritten(v, vol, vol1) && IndexAreaOk(v, vol1) && IndexWritten(v, vol1, vol2)
    ensures BitmapFrame(v, vol0, vol2)
  {
    WrittenKeepsFrame(v, vol, vol1);
    WrittenKeepsFrame(v, vol1, vol2);
    FrameTransitive(v, vol0, vol, vol1);
    FrameTransitive(v, vol0, vol1, vol2);
  }

  /** write_inode with a link count of 0, and free_inode. */
  method DropInode(v: Volume, ino: nat, e: Inode, ghost dir: FcbHeader, ghost files: map<nat, File>, ghost di: nat, ghost d: seq<byte>, ghost vol0: Image)
    requires v.Valid() && DirOpen(v, dir, files, di, d) && |v.cache.pins| < NBUFFERS
    requires IndexAreaOk(v, vol0) && 1 <= ino <= Files(v, vol0) && IndexKept(v, vol0, v.cache.logical)
    modifies v.cache, v.cache.buffer
    ensures v.Valid() && v.cache.Kept(old(v.cache.pins)) && v.cache.pins == old(v.cache.pins)
    ensures DirOpen(v, dir, files, di, d) && IndexFreed(v, vol0, v.cache.logical, ino, e)
    ensures Reaches(v, State(old(v.cache.logical), files), State(v.cache.logical, files), {ino})
  {
    ghost var vol := v.cache.logical;
    IndexEntryFreed(v, vol0, vol, ino, e);
    WriteInode(v, ino, e);
    ghost var vol1 := v.cache.logical;
    ReachesOne(v, State(vol, files), Enter(ino, e), State(vol1, files), {ino});
    DirKeptByIndex(v, vol, vol1, files, di, |d|, d);
    assert v.cache.Kept(old(v.cache.pins));
    var ok := FreeInode(v, ino);
    ReachesOne(v, State(vol1, files), Free(ino), State(v.cache.logical, files), {ino});
    ReachesOn(v, State(vol, files), State(vol1, files), State(v.cache.logical, files), {ino}, {ino}, {ino});
    DirKeptByIndex(v, vol1, v.cache.logical, files, di, |d|, d);
  }

  /** The directory entry after a deletion: it is free, and keeps its name and version. */
  function Cleared(e: DirEntry): (r: DirEntry)
    ensures Ino(r) == 0 && Named(r) && r[2..] == e[2..]
  {
    Set16(e, 0, 0)
  }

  /** The clusters and the directory entry of the file that entry k leads to. */
  method ClearEntry(v: Volume, dir: Fcb, fpos: nat, dirent: DirEntry, ino: nat, e: Inode,
                    ghost files: map<nat, File>, ghost di: nat, ghost d: seq<byte>, ghost k: nat)
    returns (ghost files': map<nat, File>, ghost d': seq<byte>)
    requires v.Valid() && DirOpen(v, dir.header, files, di, d) && |v.cache.pins| + 2 <= NBUFFERS
    requires fpos == ENTRY * k < |d| && 1 <= ino <= Files(v, v.cache.logical) && e == InodeIn(v, v.cache.logical, ino)
    requires ino in files && ino != di && Agrees(files[ino], e)
    modifies v.cache, v.cache.buffer, dir, dir.header
    ensures v.Valid() && v.cache.Kept(old(v.cache.pins)) && v.cache.pins == old(v.cache.pins)
    ensures files' == (files - {ino})[di := FileOf(dir.header)] && Clus(v, FileOf(dir.header)) == Clus(v, files[di])
    ensures DirOpen(v, dir.header, files', di, d') && d' == Overwritten(d, fpos, Cleared(dirent))
    ensures IndexAreaOk(v, old(v.cache.logical)) && IndexKept(v, old(v.cache.logical), v.cache.logical)
    ensures Reaches(v, State(old(v.cache.logical), files), State(v.cache.logical, files'), {ino, di})
  {
    ghost var vol := v.cache.logical;
    files' := DeleteStepOf(v, IsContiguous(e), AllocatedBlocks(e), Pointers(e), files, ino);
    ghost var vol1, files1 := v.cache.logical, files';
    DirKeptByStep(v, State(vol, files), Delete(ino), State(vol1, files1), di, |d|, d);
    ReachesOne(v, State(vol, files), OfFile(Delete(ino)), State(vol1, files1), {ino});
    assert v.cache.Kept(old(v.cache.pins));
    EntryInside(v, dir.header, d, fpos);
    var ok;
    ok, files', d' := EnterEntry(v, dir, fpos, Cleared(dirent), files1, di, d, k);
    KeptTransitive(v, vol, vol1, v.cache.logical);
    ReachesOn(v, State(vol, files), State(vol1, files1), State(v.cache.logical, files'), {ino}, {di}, {ino, di});
  }

  /** The deletion of that file, once it has been found. */
  method DeleteFound(v: Volume, dir: Fcb, fpos: nat, dirent: DirEntry, ino: nat, e: Inode,
                     ghost files: map<nat, File>, ghost di: nat, ghost d: seq<byte>, ghost k: nat)
    returns (ghost files': map<nat, File>, ghost d': seq<byte>)
    requires v.Valid() && DirOpen(v, dir.header, files, di, d) && |v.cache.pins| + 2 <= NBUFFERS
    requires fpos == ENTRY * k < |d| && 1 <= ino <= Files(v, v.cache.logical) && e == InodeIn(v, v.cache.logical, ino)
    requires ino in files && ino != di && Agrees(files[ino], e)
    modifies v.cache, v.cache.buffer, dir, dir.header
    ensures v.Valid() && v.cache.Kept(old(v.cache.pins)) && v.cache.pins == old(v.cache.pins)
    ensures files' == (files - {ino})[di := FileOf(dir.header)] && Clus(v, FileOf(dir.header)) == Clus(v, files[di])
    ensures DirOpen(v, dir.header, files', di, d') && d' == Overwritten(d, fpos, Cleared(dirent))
    ensures IndexAreaOk(v, old(v.cache.logical)) && IndexFreed(v, old(v.cache.logical), v.cache.logical, ino, Set16(e, 0, 0))
    ensures Reaches(v, State(old(v.cache.logical), files), State(v.cache.logical, files'), {ino, di})
  {
    ghost var vol := v.cache.logical;
    files', d' := ClearEntry(v, dir, fpos, dirent, ino, e, files, di, d, k);
    ghost var vol1 := v.cache.logical;
    assert v.cache.Kept(old(v.cache.pins));
    DropInode(v, ino, Set16(e, 0, 0), dir.header, files', di, d', vol);
    ReachesOn(v, State(vol, files), State(vol1, files'), State(v.cache.logical, files'), {ino, di}, {ino}, {ino, di});
  }

  /** The inodes of the remaining files are in use. */
  lemma {:induction false} IndexedFreed(v: Volume, vol0: Image, vol: Image, files: map<nat, File>, files': map<nat, File>, ino: nat, e: Inode)
    requires IndexAreaOk(v, vol0) && Indexed(v, vol0, files) && IndexFreed(v, vol0, vol, ino, e)
    requires forall i :: i in files' ==> i in files && i != ino
    ensures Indexed(v, vol, files')
  {
    forall m: nat | m in files' ensures 1 <= m <= Files(v, vol) && LinkCount(InodeAt(v, vol, m)) > 0 {
      assert m in files;
      assert 1 <= m <= Files(v, vol0) && LinkCount(InodeAt(v, vol0, m)) > 0 by { assert IndexKey(0); }
      InodeInIndex(v, vol0, m);
      assert InodeAt(v, vol, m) == InodeAt(v, vol0, m) by { assert IndexKey(0); }
    }
  }

  /** delete_file: the first entry of the name, and all that belongs to its file, is gone; the other
      files, entries and inodes are as they were. */
  method DeleteFile(v: Volume, dir: Fcb, fname: seq<byte>, ext: seq<byte>, vers: int, ghost files: map<nat, File>, ghost di: nat, ghost d: seq<byte>)
    returns (ok: bool, ghost ino: nat, ghost files': map<nat, File>, ghost d': seq<byte>)
    requires v.Valid() && DirOpen(v, dir.header, files, di, d) && |v.cache.pins| + 2 <= NBUFFERS && |fname| <= 9 && |ext| <= 3
    requires forall k: nat :: k < |AllEntries(d)| && Hit(AllEntries(d)[k], fname, ext, vers) ==> Closed(v, v.cache.logical, files, di, Ino(AllEntries(d)[k]))
    requires Indexed(v, v.cache.logical, files)
    modifies v.cache, v.cache.buffer, dir, dir.header
    ensures v.Valid() && v.cache.Kept(old(v.cache.pins)) && v.cache.pins == old(v.cache.pins) && DirOpen(v, dir.header, files', di, d')
    ensures Indexed(v, v.cache.logical, files')
    ensures var es := AllEntries(d);
      var k := FirstHit(es, |es|, fname, ext, vers);
      && (ok <==> k < |es| && LinkCount(InodeIn(v, old(v.cache.logical), Ino(es[k]))) > 0)
      && (ok ==> ino == Ino(es[k]) && AllEntries(d') == Put(es, k, Cleared(es[k])))
    ensures ok ==> ino in files && ino != di && files' == (files - {ino})[di := FileOf(dir.header)] && Clus(v, FileOf(dir.header)) == Clus(v, files[di])
    ensures ok ==> IndexFreed(v, old(v.cache.logical), v.cache.logical, ino, Set16(InodeIn(v, old(v.cache.logical), ino), 0, 0))
    ensures ok ==> Reaches(v, State(old(v.cache.logical), files), State(v.cache.logical, files'), {ino, di})
    ensures !ok ==> files' == files && d' == d && v.cache.logical == old(v.cache.logical)
  {
    ghost var es, vol0 := AllEntries(d), v.cache.logical;
    ghost var k := FirstHit(es, |es|, fname, ext, vers);
    files', d', ino, ok := files, d, 0, false;
    var found, fpos, dirent := FindFirst(v, dir, fname, ext, vers, d);
    if !found { return; }
    var num := Get16(dirent, 0);
    ino := num;
    InodeInIndex(v, v.cache.logical, num);
    assert v.cache.Kept(old(v.cache.pins));
    var e := ReadInode(v, num);
    if LinkCount(e) == 0 { return; }
    SlotBelow(d, k);
    assert v.cache.Kept(old(v.cache.pins));
    files', d' := DeleteFound(v, dir, fpos, dirent, num, e, files, di, d, k);
    PutBytes(d, k, Cleared(dirent));
    IndexedFreed(v, vol0, v.cache.logical, files, files', num, Set16(e, 0, 0));
    ok := true;
  }
}
