/** create_file of fileio.c: an index entry, clusters, a directory entry, and the inode. */
module FileCreation {
  import opened Bytes
  import opened BufferCache
  import opened Volumes
  import opened Bitmap
  import opened Allocation
  import opened FileMap
  import opened Footprint
  import opened FileContent
  import opened FileExtension
  import opened StreamIo
  import opened StreamLaws
  import opened VolumeRuns
  import opened VolumeSteps
  import opened Inodes
  import opened IndexArea
  import opened VolumeHistory
  import opened Directory
  import opened DirectoryFiles
  import opened FileNames

  // ---------------------------------------------------------------
  // A directory among the live files
  // ---------------------------------------------------------------

  /** dir is the header of live file di, a directory with the bytes d. */
  ghost predicate DirOpen(v: Volume, dir: FcbHeader, files: map<nat, File>, di: nat, d: seq<byte>)
    reads dir, v.cache
  {
    IsOpen(v, dir, files, di) && DirOk(v, dir, d) && IndexAreaOk(v, v.cache.logical)
  }

  /** The directory is still what it was after a step of another file ... */
  lemma DirKeptByStep(v: Volume, s: State, e: Event, t: State, i: nat, size: nat, d: seq<byte>)
    requires VolumeOk(v, s.vol, s.files) && Step(v, s, e, t) && i in s.files && i != e.inode && !s.files[i].contiguous && IndexAreaOk(v, s.vol)
    requires var f := s.files[i]; FirstBytes(v, s.vol, f.slots, f.nused, size, d)
    ensures VolumeOk(v, t.vol, t.files) && i in t.files && t.files[i] == s.files[i] && IndexAreaOk(v, t.vol) && IndexKept(v, s.vol, t.vol)
    ensures var f := s.files[i]; Sound(v, t.vol, f) && FirstBytes(v, t.vol, f.slots, f.nused, size, d)
  {
    var f := s.files[i];
    assert Sound(v, s.vol, f) by { assert RunKey(0); }
    StateFacts(v, s.vol, f.contiguous, f.nalloc, f.nused, f.bmap, f.slots, f.maps);
    StepKeepsVolume(v, s, e, t);
    StepKeepsFile(v, s, e, t, i, f.nused);
    assert Sound(v, t.vol, f) by { assert RunKey(0); }
    StepKeepsIndex(v, s, e, t);
    KeptKeepsPlaces(v, s.vol, t.vol);
    assert FirstBytes(v, t.vol, f.slots, f.nused, size, d) by { assert ContentKey(0); }
  }

  /** ... and after a write to the index. */
  lemma DirKeptByIndex(v: Volume, vol: Image, vol': Image, files: map<nat, File>, i: nat, size: nat, d: seq<byte>)
    requires VolumeOk(v, vol, files) && i in files && !files[i].contiguous && IndexAreaOk(v, vol) && IndexWritten(v, vol, vol')
    requires var f := files[i]; FirstBytes(v, vol, f.slots, f.nused, size, d)
    ensures VolumeOk(v, vol', files) && IndexAreaOk(v, vol') && IxBitmap(v, vol') == IxBitmap(v, vol) && Files(v, vol') == Files(v, vol)
    ensures var f := files[i]; Sound(v, vol', f) && FirstBytes(v, vol', f.slots, f.nused, size, d)
  {
    var f := files[i];
    assert Sound(v, vol, f) by { assert RunKey(0); }
    StateFacts(v, vol, f.contiguous, f.nalloc, f.nused, f.bmap, f.slots, f.maps);
    WrittenKeepsVolume(v, vol, vol', files);
    WrittenKeepsBytes(v, vol, vol', f.slots, f.maps, f.nused);
    assert Sound(v, vol', f) by { assert RunKey(0); }
    WrittenKeepsPlaces(v, vol, vol');
    assert FirstBytes(v, vol', f.slots, f.nused, size, d) by { assert ContentKey(0); }
  }

  // ---------------------------------------------------------------
  // The index
  // ---------------------------------------------------------------

  /** Every live file has an inode in use. */
  ghost predicate Indexed(v: Volume, vol: Image, files: map<nat, File>)
    requires IndexAreaOk(v, vol)
  {
    forall key {:trigger IndexKey(key)} :: Folded(key) ==>
    forall m: nat {:trigger m in files} :: m in files ==> 1 <= m <= Files(v, vol) && LinkCount(InodeAt(v, vol, m)) > 0
  }

  /** Compared with vol0, the first entries are marked, and inode ino, if any, is e. */
  ghost predicate IndexNow(v: Volume, vol0: Image, vol: Image, marked: nat, ino: nat, e: Inode)
    requires IndexAreaOk(v, vol0)
  {
    && |vol| == |vol0| && BitmapFrame(v, vol0, vol) && IndexAreaOk(v, vol) && IxBitmap(v, vol) == IxBitmap(v, vol0) && Files(v, vol) == Files(v, vol0)
    && forall key {:trigger IndexKey(key)} :: Folded(key) ==>
    forall m: nat {:trigger InodeBlock(v, m)} :: 1 <= m <= Files(v, vol0) ==>
      && InodeAt(v, vol, m) == (if m == ino then e else InodeAt(v, vol0, m))
      && Bit(vol, IxBitmap(v, vol0), m - 1) == (m <= marked || Bit(vol0, IxBitmap(v, vol0), m - 1))
  }

  /** What IndexNow says of one entry. */
  lemma IndexEntryNow(v: Volume, vol0: Image, vol: Image, marked: nat, ino: nat, e: Inode, m: nat)
    requires IndexAreaOk(v, vol0) && IndexNow(v, vol0, vol, marked, ino, e) && 1 <= m <= Files(v, vol0)
    ensures InodeBlock(v, m) < |vol| && InodeAt(v, vol, m) == if m == ino then e else InodeAt(v, vol0, m)
    ensures Bit(vol, IxBitmap(v, vol0), m - 1) == (m <= marked || Bit(vol0, IxBitmap(v, vol0), m - 1))
  {
    InodeInIndex(v, vol0, m);
    assert IndexKey(0);
  }

  /** The search of new_inode. */
  lemma {:induction false} IndexSearched(v: Volume, vol0: Image, vol: Image, k: nat)
    requires IndexAreaOk(v, vol0) && k <= Files(v, vol0) && MarkedUpTo(vol0, vol, IxBitmap(v, vol0), k)
    ensures IndexWritten(v, vol0, vol) && IndexNow(v, vol0, vol, k, 0, ZeroEntry())
  {
    SearchWritten(v, vol0, vol, k);
    WrittenKeepsPlaces(v, vol0, vol);
    WrittenKeepsFrame(v, vol0, vol);
    forall m: nat | 1 <= m <= Files(v, vol0)
      ensures InodeAt(v, vol, m) == InodeAt(v, vol0, m)
      ensures Bit(vol, IxBitmap(v, vol0), m - 1) == (m <= k || Bit(vol0, IxBitmap(v, vol0), m - 1))
    {
      SearchedEntry(v, vol0, vol, k, m);
    }
  }

  /** What does not touch the index changes nothing of this ... */
  lemma {:induction false} IndexNowKept(v: Volume, vol0: Image, vol: Image, vol': Image, marked: nat, ino: nat, e: Inode)
    requires IndexAreaOk(v, vol0) && IndexNow(v, vol0, vol, marked, ino, e) && IndexKept(v, vol, vol')
    ensures IndexNow(v, vol0, vol', marked, ino, e)
  {
    KeptKeepsPlaces(v, vol, vol');
    FrameTransitive(v, vol0, vol, vol');
    forall m: nat | 1 <= m <= Files(v, vol0)
      ensures InodeAt(v, vol', m) == if m == ino then e else InodeAt(v, vol0, m)
      ensures Bit(vol', IxBitmap(v, vol0), m - 1) == (m <= marked || Bit(vol0, IxBitmap(v, vol0), m - 1))
    {
      IndexEntryNow(v, vol0, vol, marked, ino, e, m);
      KeptInodes(v, vol, vol', m);
    }
  }

  /** ... and then the inode is written. */
  lemma {:induction false} IndexEntered(v: Volume, vol0: Image, vol: Image, marked: nat, i0: nat, e0: Inode, ino: nat, e: Inode)
    requires IndexAreaOk(v, vol0) && IndexNow(v, vol0, vol, marked, i0, e0) && (i0 == 0 || i0 == ino) && 1 <= ino <= Files(v, vol0)
    ensures InodeBlock(v, ino) < |vol| && IndexWritten(v, vol, WithInode(v, vol, ino, e))
    ensures IndexNow(v, vol0, WithInode(v, vol, ino, e), marked, ino, e)
  {
    var vol' := WithInode(v, vol, ino, e);
    InodeWritten(v, vol, ino, e);
    WrittenKeepsPlaces(v, vol, vol');
    WrittenKeepsFrame(v, vol, vol');
    FrameTransitive(v, vol0, vol, vol');
    forall m: nat | 1 <= m <= Files(v, vol0)
      ensures InodeAt(v, vol', m) == if m == ino then e else InodeAt(v, vol0, m)
      ensures Bit(vol', IxBitmap(v, vol0), m - 1) == (m <= marked || Bit(vol0, IxBitmap(v, vol0), m - 1))
    {
      IndexEntryNow(v, vol0, vol, marked, i0, e0, m);
      WrittenInode(v, vol, ino, e, m);
    }
  }

  lemma {:induction false} FreshIsFree(v: Volume, vol: Image, ino: nat)
    requires IndexAreaOk(v, vol) && FreshInode(v, vol, ino)
    ensures !NoneFree(v, vol, IxBitmap(v, vol), 0, Files(v, vol))
  {
    assert InodeKey(0);
    var j: nat := ino - 1;
    assert j + 1 == ino;
  }

  /** new_inode and the checks behind it. */
  method TakeInode(v: Volume, ghost dir: FcbHeader, ghost files: map<nat, File>, ghost di: nat, ghost d: seq<byte>) returns (ino: nat, e: Inode, ghost k: nat)
    requires v.Valid() && DirOpen(v, dir, files, di, d) && Indexed(v, v.cache.logical, files) && |v.cache.pins| < NBUFFERS
    modifies v.cache, v.cache.buffer
    ensures v.Valid() && v.cache.Kept(old(v.cache.pins)) && DirOpen(v, dir, files, di, d)
    ensures k <= Files(v, old(v.cache.logical)) && IndexNow(v, old(v.cache.logical), v.cache.logical, k, 0, ZeroEntry())
    ensures ino == 0 <==> NoneFree(v, old(v.cache.logical), IxBitmap(v, v.cache.logical), 0, Files(v, v.cache.logical))
    ensures IndexWritten(v, old(v.cache.logical), v.cache.logical) && Reaches(v, State(old(v.cache.logical), files), State(v.cache.logical, files), {})
    ensures ino > 0 ==> v.cache.pins == old(v.cache.pins) && ino == k && ino !in files && ino != di
    ensures ino > 0 ==> FreshInode(v, old(v.cache.logical), ino) && e == InodeAt(v, old(v.cache.logical), ino)
  {
    ghost var vol0 := v.cache.logical;
    ino, k := NewInode(v);
    e := ZeroEntry();
    if ino > 0 { k := ino; }
    IndexSearched(v, vol0, v.cache.logical, k);
    ReachesOne(v, State(vol0, files), Search(k), State(v.cache.logical, files), {});
    DirKeptByIndex(v, vol0, v.cache.logical, files, di, |d|, d);
    if ino > 0 {
      FreshIsFree(v, vol0, ino);
      assert ino !in files by { assert IndexKey(0); }
      IndexEntryNow(v, vol0, v.cache.logical, k, 0, ZeroEntry(), ino);
      assert v.cache.Kept(old(v.cache.pins));
      e := ReadInode(v, ino);
    }
  }

  // ---------------------------------------------------------------
  // Clusters
  // ---------------------------------------------------------------

  /** The record of a file just created. */
  ghost function NewFile(v: Volume, contiguous: bool, csize: nat, blkno: nat): File
  {
    if contiguous then File(true, csize, 0, [blkno, 0, 0, 0, 0, 0], Consecutive(Shr(blkno, v.clfactor), Clusters(csize, v.clfactor)), [])
    else File(false, 0, 0, [0, 0, 0, 0, 0, 0], [], [])
  }

  /** A contiguous file gets its clusters, first fit; any other file has none yet. */
  method TakeSpace(v: Volume, contiguous: bool, csize: nat, ghost dir: FcbHeader, ghost files: map<nat, File>, ghost di: nat, ghost d: seq<byte>, ghost ino: nat)
    returns (ok: bool, blkno: nat, ghost files': map<nat, File>)
    requires v.Valid() && DirOpen(v, dir, files, di, d) && |v.cache.pins| < NBUFFERS && ino !in files && ino != di
    requires contiguous ==> csize > 0 && (v.clfactor == 0 || RunExists(v, v.cache.logical, Clusters(csize, v.clfactor)))
    modifies v.cache, v.cache.buffer
    ensures v.Valid() && v.cache.Kept(old(v.cache.pins)) && v.cache.pins == old(v.cache.pins)
    ensures DirOpen(v, dir, files', di, d) && IndexAreaOk(v, old(v.cache.logical)) && IndexKept(v, old(v.cache.logical), v.cache.logical)
    ensures ok <==> !contiguous || old(RunExists(v, v.cache.logical, Clusters(csize, v.clfactor)))
    ensures !ok ==> files' == files && v.cache.logical == old(v.cache.logical)
    ensures ok ==> files' == files[ino := NewFile(v, contiguous, csize, blkno)] && blkno < v.NBlocks() && (!contiguous ==> blkno == 0)
    ensures ok ==> |Used(v, v.cache.logical)| == |Used(v, old(v.cache.logical))| + Clusters(if contiguous then csize else 0, v.clfactor)
    ensures Reaches(v, State(old(v.cache.logical), files), State(v.cache.logical, files'), {ino})
  {
    ghost var vol := v.cache.logical;
    KeptNothing(v, vol);
    ReachesSame(v, State(vol, files), {ino});
    ok, blkno, files' := true, 0, files;
    if contiguous {
      blkno, files' := CreateRun(v, csize, files, ino);
      ok := blkno > 0;
      if ok {
        ghost var f := files'[ino];
        DirKeptByStep(v, State(vol, files), Grow(ino, f), State(v.cache.logical, files'), di, |d|, d);
        ReachesOne(v, State(vol, files), OfFile(Grow(ino, f)), State(v.cache.logical, files'), {ino});
        RunInVolume(v, v.cache.logical, f, csize);
        TakenSize(v, vol, files, v.cache.logical, ino, f);
      }
    } else {
      CreateEmpty(v, vol, files, ino);
      files' := files[ino := NewFile(v, contiguous, csize, blkno)];
      ReachesOne(v, State(vol, files), OfFile(Grow(ino, files'[ino])), State(vol, files'), {ino});
      NoClusters(v.clfactor);
      assert files'[di] == files[di];
    }
  }

  lemma RunInVolume(v: Volume, vol: Image, f: File, csize: nat)
    requires Sound(v, vol, f) && f.contiguous && f.nalloc == csize > 0
    ensures f.bmap[0] < v.NBlocks()
  {
    assert FileKey(0);
    SplitBlock(csize, v.clfactor);
    NoClusters(v.clfactor);
    assert InFileArea(v, f.slots[0]) by { assert PlaceKey(0); }
    SplitBlock(f.bmap[0], v.clfactor);
    BlockInVolume(v, Shr(f.bmap[0], v.clfactor), Low(f.bmap[0], v.clfactor));
  }

  /** A new file without map blocks takes as many clusters as it has slots. */
  lemma TakenSize(v: Volume, vol: Image, files: map<nat, File>, vol': Image, i: nat, f: File)
    requires VolumeOk(v, vol, files) && i !in files && VolumeOk(v, vol', files[i := f]) && f.maps == []
    ensures |Used(v, vol')| == |Used(v, vol)| + |f.slots|
  {
    assert Sound(v, vol', f) by { assert files[i := f][i] == f && RunKey(0); }
    SoundFacts(v, vol', f);
    OwnedSize(v, f.slots, []);
    TakenFrom(v, vol, files, vol', i, f);
    DisjointSize(Used(v, vol), Clus(v, f));
  }

  lemma TakenFrom(v: Volume, vol: Image, files: map<nat, File>, vol': Image, i: nat, f: File)
    requires VolumeOk(v, vol, files) && i !in files && VolumeOk(v, vol', files[i := f])
    ensures Used(v, vol') == Used(v, vol) + Clus(v, f) && Used(v, vol) !! Clus(v, f)
  {
    var files' := files[i := f];
    AllClusWith(v, files, i, f);
    assert files - {i} == files;
    assert RunKey(0);
    SoundFacts(v, vol', files'[i]);
    forall j | j in files ensures Clus(v, files[j]) !! Clus(v, f) {
      assert files'[j] == files[j] && files'[i] == f;
    }
    forall c: nat | c < v.NClusters() ensures c in Used(v, vol') <==> c in Used(v, vol) + Clus(v, f) {
    }
  }

  lemma DisjointSize(a: set<nat>, b: set<nat>)
    requires a !! b
    ensures |a + b| == |a| + |b|
  {
    assert (a + b) - a == b;
  }

  /** free_cluster of the clusters just allocated. */
  method GiveBack(v: Volume, csize: nat, blkno: nat, ghost dir: FcbHeader, ghost files: map<nat, File>, ghost di: nat, ghost d: seq<byte>, ghost ino: nat)
    returns (ghost files': map<nat, File>)
    requires v.Valid() && DirOpen(v, dir, files, di, d) && |v.cache.pins| + 1 < NBUFFERS && ino != di
    requires ino in files && files[ino] == NewFile(v, true, csize, blkno)
    modifies v.cache, v.cache.buffer
    ensures v.Valid() && v.cache.Kept(old(v.cache.pins)) && v.cache.pins == old(v.cache.pins)
    ensures files' == files - {ino} && DirOpen(v, dir, files', di, d)
    ensures IndexAreaOk(v, old(v.cache.logical)) && IndexKept(v, old(v.cache.logical), v.cache.logical)
    ensures Reaches(v, State(old(v.cache.logical), files), State(v.cache.logical, files'), {ino})
  {
    ghost var vol := v.cache.logical;
    files' := DeleteStepOf(v, true, csize, [blkno, 0, 0, 0, 0, 0], files, ino);
    ReachesOne(v, State(vol, files), OfFile(Delete(ino)), State(v.cache.logical, files'), {ino});
    DirKeptByStep(v, State(vol, files), Delete(ino), State(v.cache.logical, files'), di, |d|, d);
  }

  // ---------------------------------------------------------------
  // The directory entry and the inode
  // ---------------------------------------------------------------

  /** The directory is written to, and may grow. */
  method EnterEntry(v: Volume, dir: Fcb, fpos: nat, e: DirEntry, ghost files: map<nat, File>, ghost di: nat, ghost d: seq<byte>, ghost k: nat)
    returns (ok: bool, ghost files': map<nat, File>, ghost d': seq<byte>)
    requires v.Valid() && DirOpen(v, dir.header, files, di, d) && |v.cache.pins| + 2 <= NBUFFERS && Named(e)
    requires fpos == ENTRY * k <= |d| && (v.clfactor == 0 || EntryFits(v, dir.header, fpos))
    modifies v.cache, v.cache.buffer, dir, dir.header
    ensures v.Valid() && v.cache.Kept(old(v.cache.pins))
    ensures files' == files[di := FileOf(dir.header)] && DirOpen(v, dir.header, files', di, d')
    ensures IndexAreaOk(v, old(v.cache.logical)) && IndexKept(v, old(v.cache.logical), v.cache.logical)
    ensures Reaches(v, State(old(v.cache.logical), files), State(v.cache.logical, files'), {di})
    ensures ok <==> old(EntryFits(v, dir.header, fpos))
    ensures ok ==> v.cache.pins == old(v.cache.pins) && d' == Overwritten(d, ENTRY * k, e)
    ensures ok ==> |Used(v, v.cache.logical)| == |Used(v, old(v.cache.logical))| + old(EntryCost(HeaderExtent(v, dir.header), fpos, v.clfactor))
    ensures ok && old(EntryCost(HeaderExtent(v, dir.header), fpos, v.clfactor)) == 0 ==> Clus(v, FileOf(dir.header)) == Clus(v, files[di])
    ensures !ok ==> ENTRY * k == |d| && |d| % 512 == 0 && Full(v, v.cache.logical) && v.clfactor == 0 && d' == WithoutLastBlock(d)
    ensures !ok ==> v.cache.pins == old(v.cache.pins) + multiset{LeakedBlock(v)}
  {
    ghost var vol, f := v.cache.logical, FileOf(dir.header);
    FileOkIsSound(v, dir.header);
    ok := PutEntry(v, dir, fpos, e, d, k);
    d' := if ok then Overwritten(d, ENTRY * k, e) else WithoutLastBlock(d);
    ghost var f' := FileOf(dir.header);
    files' := files[di := f'];
    EntryStep(v, vol, files, di, f', v.cache.logical);
  }

  lemma EntryStep(v: Volume, vol: Image, files: map<nat, File>, di: nat, f: File, vol': Image)
    requires VolumeOk(v, vol, files) && di in files && IndexAreaOk(v, vol)
    requires Wrote(v, vol, files[di].slots, files[di].maps, vol', f.slots, f.maps) && Sound(v, vol', f)
    ensures VolumeOk(v, vol', files[di := f]) && IndexAreaOk(v, vol') && IndexKept(v, vol, vol')
    ensures Reaches(v, State(vol, files), State(vol', files[di := f]), {di})
    ensures |Used(v, vol')| <= |Used(v, vol)| ==> Clus(v, f) == Clus(v, files[di])
  {
    GrowKeepsVolume(v, vol, files, di, f, vol');
    StepKeepsIndex(v, State(vol, files), Grow(di, f), State(vol', files[di := f]));
    KeptKeepsPlaces(v, vol, vol');
    ReachesOne(v, State(vol, files), OfFile(Grow(di, f)), State(vol', files[di := f]), {di});
    if |Used(v, vol')| <= |Used(v, vol)| { NothingTaken(v, vol, files[di].slots, files[di].maps, vol', f.slots, f.maps); }
  }

  /** An entry inside the directory has its block. */
  lemma EntryInside(v: Volume, dir: FcbHeader, d: seq<byte>, pos: nat)
    requires DirOk(v, dir, d) && pos < |d|
    ensures EntryCost(HeaderExtent(v, dir), pos, v.clfactor) == 0 && EntryFits(v, dir, pos)
  {
    ContentIsContent(v, dir, d);
    UsedFits(v, v.cache.logical);
  }

  /** write_inode of the new inode, at the end. */
  method EnterInode(v: Volume, ino: nat, e: Inode, ghost dir: FcbHeader, ghost files: map<nat, File>, ghost di: nat, ghost d: seq<byte>, ghost vol0: Image, ghost k: nat)
    requires v.Valid() && DirOpen(v, dir, files, di, d) && |v.cache.pins| < NBUFFERS
    requires IndexAreaOk(v, vol0) && 1 <= ino <= Files(v, vol0) && IndexNow(v, vol0, v.cache.logical, k, 0, ZeroEntry())
    modifies v.cache, v.cache.buffer
    ensures v.Valid() && v.cache.Kept(old(v.cache.pins)) && v.cache.pins == old(v.cache.pins)
    ensures DirOpen(v, dir, files, di, d) && IndexNow(v, vol0, v.cache.logical, k, ino, e)
    ensures Used(v, v.cache.logical) == Used(v, old(v.cache.logical))
    ensures Reaches(v, State(old(v.cache.logical), files), State(v.cache.logical, files), {ino})
  {
    ghost var vol := v.cache.logical;
    IndexEntered(v, vol0, vol, k, 0, ZeroEntry(), ino, e);
    WriteInode(v, ino, e);
    ReachesOne(v, State(vol, files), Enter(ino, e), State(v.cache.logical, files), {ino});
    DirKeptByIndex(v, vol, v.cache.logical, files, di, |d|, d);
    WrittenKeepsUsed(v, vol, v.cache.logical);
  }

  // ---------------------------------------------------------------
  // create_file
  // ---------------------------------------------------------------

  /** What create_file is asked to create; dir is empty for the current directory. */
  datatype Request = Request(dir: seq<byte>, fname: seq<byte>, ext: seq<byte>, vers: int, contiguous: bool, csize: nat, user: byte, group: byte, perm: nat, date: seq<byte>)
  {
    /** Directory, name and extension are what parse_name yields. */
    predicate Ok()
    {
      && |dir| <= 9 && |fname| <= 9 && |ext| <= 3 && RBRACKET !in dir && DOT !in fname && SEMICOLON !in ext
      && IsString(fname) && IsString(ext) && |date| == 7 && (contiguous ==> 0 < csize < 0x100_0000)
    }

    /** The file can be opened by its full name. */
    predicate Plain() { FileNames.Plain(dir, fname) }

    function Blocks(): nat { if contiguous then csize else 0 }
  }

  datatype Made = IndexFull | FileExists | NoSpace | NotEntered | Made

  /** Name, extension and version as set_name writes them. */
  function NameField(fname: seq<byte>, ext: seq<byte>, vers: int): (r: seq<byte>)
    requires |fname| <= 9 && |ext| <= 3
    ensures |r| == 14
  {
    MakeEntry(0, fname, ext, vers)[2..]
  }

  /** The inode of the new file. */
  function InodeFor(e: Inode, q: Request, clfactor: nat, blkno: nat, vers: int): Inode
    requires q.Ok()
  {
    NewInodeEntry(e, if q.contiguous then FA_CTG_FILE else FA_FILE, clfactor, q.user, q.group, q.Blocks(), 0, 0, q.perm, blkno, 0, q.date, NameField(q.fname, q.ext, vers))
  }

  /** The inode of a file that was asked for: a plain file or a contiguous one, never a directory, with the owner
      and the name of the request, blanks behind its parts, and its version; e0 is what the entry held before. */
  ghost predicate NewFileInode(e0: Inode, e: Inode, q: Request, clfactor: nat, vers: int)
  {
    && (q.contiguous ==> e[2] == 0x09) && (!q.contiguous ==> e[2] == 0x01) && e[3] == clfactor % 256
    && Get16(e, 4) == (Get16(e0, 4) + 1) % 0x1_0000 && e[6] == q.user && e[7] == q.group && Get16(e, 30) == q.perm % 0x1_0000 && e[16..23] == q.date
    && (forall k: nat :: k < 9 ==> e[50 + k] == if k < |q.fname| then q.fname[k] else 32)
    && (forall k: nat :: k < 3 ==> e[59 + k] == if k < |q.ext| then q.ext[k] else 32) && Get16(e, 62) == vers % 0x1_0000
  }

  lemma InodeForIsNew(e: Inode, q: Request, clfactor: nat, blkno: nat, vers: int)
    requires q.Ok()
    ensures NewFileInode(e, InodeFor(e, q, clfactor, blkno, vers), q, clfactor, vers)
  {
    var r, name := InodeFor(e, q, clfactor, blkno, vers), NameField(q.fname, q.ext, vers);
    NewInodeIdentified(e, if q.contiguous then FA_CTG_FILE else FA_FILE, clfactor, q.user, q.group, q.Blocks(), 0, 0, q.perm, blkno, 0, q.date, name);
    assert forall k: nat :: k < 14 ==> r[50 + k] == r[50..64][k] == name[k] == MakeEntry(0, q.fname, q.ext, vers)[2 + k];
  }

  lemma InodeForSays(e: Inode, q: Request, clfactor: nat, blkno: nat, vers: int)
    requires q.Ok() && blkno < 0x100_0000
    ensures InodeSays(InodeFor(e, q, clfactor, blkno, vers), q.contiguous, q.Blocks(), 0, 0, blkno, 0)
    ensures NewFileInode(e, InodeFor(e, q, clfactor, blkno, vers), q, clfactor, vers)
  {
    InodeForIsNew(e, q, clfactor, blkno, vers);
    Attributes();
    NewInodeSays(e, if q.contiguous then FA_CTG_FILE else FA_FILE, clfactor, q.user, q.group, q.Blocks(), 0, 0, q.perm, blkno, 0, q.date, NameField(q.fname, q.ext, vers));
  }

  // ---------------------------------------------------------------
  // What will become of a request
  // ---------------------------------------------------------------

  /** Where the new entry goes. */
  function EntryPlace(es: seq<DirEntry>): nat
  {
    ENTRY * FreeSlot(es, |es|)
  }

  /** Clusters that a request takes: those of a contiguous file, and those by which the directory
      grows.  x is the size of the directory. */
  function CreateCost(cf: nat, x: Extent, pos: nat, q: Request): nat
  {
    Clusters(q.Blocks(), cf) + EntryCost(x, pos, cf)
  }

  /** Whether there is space for the file and its entry. */
  ghost function SpaceFor(v: Volume, vol: Image, x: Extent, pos: nat, q: Request): (r: Made)
    ensures r.NoSpace? || r.NotEntered? || r.Made?
  {
    if q.contiguous && !RunExists(v, vol, Clusters(q.csize, v.clfactor)) then NoSpace
    else if !HasFree(v, vol, CreateCost(v.clfactor, x, pos, q)) then NotEntered
    else Made.Made
  }

  /** What create_file will return. */
  ghost function CreateOutcome(v: Volume, vol: Image, x: Extent, es: seq<DirEntry>, q: Request): (r: Made)
    requires IndexAreaOk(v, vol) && q.Ok()
  {
    if NoneFree(v, vol, IxBitmap(v, vol), 0, Files(v, vol)) then IndexFull
    else if Exists(es, q.fname, q.ext, q.vers) then FileExists
    else SpaceFor(v, vol, x, EntryPlace(es), q)
  }

  /** With clusters of more than one block it is not noticed when they run out. */
  ghost predicate Noticed(v: Volume, r: Made)
  {
    v.clfactor == 0 || !(r.NoSpace? || r.NotEntered?)
  }

  /** The end of create_file: the directory entry and then the inode, or else the clusters are
      given back. */
  method EnterFile(v: Volume, dir: Fcb, q: Request, ino: nat, inode: Inode, dirent: DirEntry, fpos: nat, blkno: nat,
                   ghost files: map<nat, File>, ghost di: nat, ghost d: seq<byte>, ghost vol0: Image, ghost k: nat)
    returns (ok: bool, ghost files': map<nat, File>, ghost d': seq<byte>)
    requires v.Valid() && DirOpen(v, dir.header, files, di, d) && |v.cache.pins| + 4 <= NBUFFERS && Named(dirent)
    requires IndexAreaOk(v, vol0) && 1 <= ino <= Files(v, vol0) && IndexNow(v, vol0, v.cache.logical, ino, 0, ZeroEntry())
    requires ino in files && ino != di && files[ino] == NewFile(v, q.contiguous, q.csize, blkno)
    requires fpos == ENTRY * k <= |d| && (v.clfactor == 0 || EntryFits(v, dir.header, fpos))
    modifies v.cache, v.cache.buffer, dir, dir.header
    ensures v.Valid() && v.cache.Kept(old(v.cache.pins)) && DirOpen(v, dir.header, files', di, d')
    ensures Reaches(v, State(old(v.cache.logical), files), State(v.cache.logical, files'), {ino, di})
    ensures ok <==> old(EntryFits(v, dir.header, fpos))
    ensures ok ==> v.cache.pins == old(v.cache.pins) && IndexNow(v, vol0, v.cache.logical, ino, ino, inode)
    ensures ok ==> d' == Overwritten(d, fpos, dirent) && files' == files[di := FileOf(dir.header)]
    ensures ok ==> |Used(v, v.cache.logical)| == |Used(v, old(v.cache.logical))| + old(EntryCost(HeaderExtent(v, dir.header), fpos, v.clfactor))
    ensures ok && old(EntryCost(HeaderExtent(v, dir.header), fpos, v.clfactor)) == 0 ==> Clus(v, FileOf(dir.header)) == Clus(v, files[di])
    ensures !ok ==> IndexNow(v, vol0, v.cache.logical, ino, 0, ZeroEntry())
    ensures !ok ==> fpos == |d| && |d| % 512 == 0 && v.clfactor == 0 && d' == WithoutLastBlock(d)
    ensures !ok ==> files' == files[di := FileOf(dir.header)] - {ino}
  {
    ghost var vol := v.cache.logical;
    ok, files', d' := EnterEntry(v, dir, fpos, dirent, files, di, d, k);
    ghost var vol1, files1 := v.cache.logical, files';
    IndexNowKept(v, vol0, vol, vol1, ino, 0, ZeroEntry());
    assert v.cache.Kept(old(v.cache.pins));
    if ok {
      EnterInode(v, ino, inode, dir.header, files', di, d', vol0, ino);
    } else {
      files' := LeaveFile(v, q, blkno, dir.header, files1, di, d', ino, vol0);
    }
    ReachesOn(v, State(vol, files), State(vol1, files1), State(v.cache.logical, files'), {di}, {ino}, {ino, di});
  }

  /** The clusters of a file that could not be entered. */
  method LeaveFile(v: Volume, q: Request, blkno: nat, ghost dir: FcbHeader, ghost files: map<nat, File>, ghost di: nat, ghost d: seq<byte>, ghost ino: nat, ghost vol0: Image)
    returns (ghost files': map<nat, File>)
    requires v.Valid() && DirOpen(v, dir, files, di, d) && |v.cache.pins| + 1 < NBUFFERS && ino != di
    requires ino in files && files[ino] == NewFile(v, q.contiguous, q.csize, blkno)
    requires IndexAreaOk(v, vol0) && IndexNow(v, vol0, v.cache.logical, ino, 0, ZeroEntry())
    modifies v.cache, v.cache.buffer
    ensures v.Valid() && v.cache.Kept(old(v.cache.pins)) && v.cache.pins == old(v.cache.pins)
    ensures files' == files - {ino} && DirOpen(v, dir, files', di, d) && IndexNow(v, vol0, v.cache.logical, ino, 0, ZeroEntry())
    ensures Reaches(v, State(old(v.cache.logical), files), State(v.cache.logical, files'), {ino})
  {
    ghost var vol := v.cache.logical;
    if q.contiguous {
      files' := GiveBack(v, q.csize, blkno, dir, files, di, d, ino);
      IndexNowKept(v, vol0, vol, v.cache.logical, ino, 0, ZeroEntry());
    } else {
      EmptyForgotten(v, vol, files, ino);
      files' := files - {ino};
      ReachesOne(v, State(vol, files), OfFile(Delete(ino)), State(vol, files'), {ino});
    }
  }

  lemma EmptyForgotten(v: Volume, vol: Image, files: map<nat, File>, ino: nat)
    requires VolumeOk(v, vol, files) && ino in files && files[ino].slots == [] && files[ino].maps == []
    requires IndexAreaOk(v, vol)
    ensures VolumeOk(v, vol, files - {ino}) && Changes(v, State(vol, files), OfFile(Delete(ino)), State(vol, files - {ino}))
  {
    assert Clus(v, files[ino]) == {};
    assert BitsKey(0);
    DeleteKeepsVolume(v, vol, files, ino, vol);
  }

  lemma AddedAndRemoved(files: map<nat, File>, i: nat, f: File, j: nat, g: File)
    requires i !in files && i != j
    ensures files[i := f][j := g] - {i} == files[j := g]
  {
  }

  method BuildInode(e0: Inode, q: Request, clfactor: nat, blkno: nat, vers: int) returns (e: Inode)
    requires q.Ok() && blkno < 0x100_0000
    ensures InodeSays(e, q.contiguous, q.Blocks(), 0, 0, blkno, 0) && NewFileInode(e0, e, q, clfactor, vers)
  {
    InodeForSays(e0, q, clfactor, blkno, vers);
    e := InodeFor(e0, q, clfactor, blkno, vers);
  }

  /** Only the marked clusters matter. */
  lemma {:induction false} SpaceSame(v: Volume, vol: Image, vol': Image, x: Extent, pos: nat, q: Request)
    requires Used(v, vol') == Used(v, vol)
    ensures SpaceFor(v, vol', x, pos, q) == SpaceFor(v, vol, x, pos, q)
  {
    var num := Clusters(q.csize, v.clfactor);
    forall s: nat | s + num <= v.NClusters() ensures ClearRun(vol', v.bmblock, s, num) <==> ClearRun(vol, v.bmblock, s, num) {
      forall c: nat | s <= c < s + num ensures Bit(vol', v.bmblock, c) == Bit(vol, v.bmblock, c) {
        assert c in Used(v, vol') <==> c in Used(v, vol);
      }
    }
  }

  ghost predicate MadeKey(k: int)
  {
    true
  }

  /** Inode, clusters and directory entry of the new file are in place. */
  ghost predicate Entered(v: Volume, vol0: Image, vol: Image, q: Request, files: map<nat, File>, files': map<nat, File>, di: nat, dir: File,
                          x: Extent, d: seq<byte>, d': seq<byte>, fpos: nat, ino: nat, e: Inode, blkno: nat, vers: int)
    requires IndexAreaOk(v, vol0) && q.Ok() && fpos <= |d| && di in files
  {
    forall key {:trigger MadeKey(key)} :: Folded(key) ==>
    && IndexNow(v, vol0, vol, ino, ino, e) && InodeSays(e, q.contiguous, q.Blocks(), 0, 0, blkno, 0)
    && NewFileInode(InodeIn(v, vol0, ino), e, q, v.clfactor, vers)
    && d' == Overwritten(d, fpos, MakeEntry(ino, q.fname, q.ext, vers))
    && files' == files[ino := NewFile(v, q.contiguous, q.csize, blkno)][di := dir] && (!q.contiguous ==> blkno == 0)
    && |Used(v, vol)| == |Used(v, vol0)| + CreateCost(v.clfactor, x, fpos, q)
    && (EntryCost(x, fpos, v.clfactor) == 0 ==> Clus(v, dir) == Clus(v, files[di]))
  }

  /** The new file as create_file leaves it.  x is the size of the directory before: it takes further
      clusters only when its new entry needs them. */
  ghost predicate FileMade(v: Volume, vol0: Image, vol: Image, q: Request, files: map<nat, File>, files': map<nat, File>, di: nat, dir: File,
                           x: Extent, es: seq<DirEntry>, es': seq<DirEntry>, ino: nat, e: Inode, blkno: nat)
    requires IndexAreaOk(v, vol0) && q.Ok() && di in files
  {
    forall key {:trigger MadeKey(key)} :: Folded(key) ==>
    && IndexNow(v, vol0, vol, ino, ino, e) && InodeSays(e, q.contiguous, q.Blocks(), 0, 0, blkno, 0)
    && NewFileInode(InodeIn(v, vol0, ino), e, q, v.clfactor, Highest(es, |es|, q.fname, q.ext) + 1)
    && FreshInode(v, vol0, ino) && ino !in files && ino != di && !Exists(es, q.fname, q.ext, q.vers)
    && es' == Created(es, ino, q.fname, q.ext)
    && files' == files[ino := NewFile(v, q.contiguous, q.csize, blkno)][di := dir] && (!q.contiguous ==> blkno == 0)
    && |Used(v, vol)| == |Used(v, vol0)| + CreateCost(v.clfactor, x, EntryPlace(es), q)
    && (EntryCost(x, EntryPlace(es), v.clfactor) == 0 ==> Clus(v, dir) == Clus(v, files[di]))
  }

  lemma EnteredIsMade(v: Volume, vol0: Image, vol: Image, q: Request, files: map<nat, File>, files': map<nat, File>, di: nat, dir: File,
                      x: Extent, d: seq<byte>, d': seq<byte>, fpos: nat, ino: nat, e: Inode, blkno: nat, vers: int)
    requires IndexAreaOk(v, vol0) && q.Ok() && di in files && |d| % ENTRY == 0 && FreshInode(v, vol0, ino) && ino !in files && ino != di
    requires fpos <= |d| && Entered(v, vol0, vol, q, files, files', di, dir, x, d, d', fpos, ino, e, blkno, vers)
    requires var es := AllEntries(d);
      fpos == ENTRY * FreeSlot(es, |es|) && vers == Highest(es, |es|, q.fname, q.ext) + 1 && !Exists(es, q.fname, q.ext, q.vers)
    ensures FileMade(v, vol0, vol, q, files, files', di, dir, x, AllEntries(d), AllEntries(d'), ino, e, blkno)
  {
    EnteredIsCreated(d, ino, q.fname, q.ext, FreeSlot(AllEntries(d), |AllEntries(d)|), MakeEntry(ino, q.fname, q.ext, vers));
    assert d' == Overwritten(d, fpos, MakeEntry(ino, q.fname, q.ext, vers)) by { assert MadeKey(0); }
    assert AllEntries(d') == Created(AllEntries(d), ino, q.fname, q.ext);
    assert MadeKey(0);
  }

  /** Nothing was made, but entry ino stays marked although its inode is not in use. */
  ghost predicate InodeLost(v: Volume, vol0: Image, vol: Image, ino: nat)
    requires IndexAreaOk(v, vol0)
  {
    FreshInode(v, vol0, ino) && IndexNow(v, vol0, vol, ino, 0, ZeroEntry())
  }

  /** The files and inodes that create_file changes. */
  function Concerned(r: Made, ino: nat, di: nat): set<nat>
  {
    if r.IndexFull? then {} else {ino, di}
  }

  /** create_file has failed: at most marks of the index have changed, or the directory has lost the
      entries of its last block. */
  ghost predicate NotMade(v: Volume, vol0: Image, vol: Image, r: Made, files: map<nat, File>, files': map<nat, File>, di: nat, dir: File,
                          d: seq<byte>, d': seq<byte>, ino: nat)
    requires IndexAreaOk(v, vol0)
  {
    && !r.Made?
    && forall key {:trigger MadeKey(key)} :: Folded(key) ==>
    && (if r.IndexFull? then IndexNow(v, vol0, vol, ino, 0, ZeroEntry()) else InodeLost(v, vol0, vol, ino))
    && (if r.NotEntered? then d' == WithoutLastBlock(d) && files' == files[di := dir] else d' == d && files' == files)
  }

  lemma NotMadeFacts(v: Volume, vol0: Image, vol: Image, r: Made, files: map<nat, File>, files': map<nat, File>, di: nat, dir: File,
                     d: seq<byte>, d': seq<byte>, ino: nat)
    requires IndexAreaOk(v, vol0) && NotMade(v, vol0, vol, r, files, files', di, dir, d, d', ino)
    ensures IndexNow(v, vol0, vol, ino, 0, ZeroEntry()) && (!r.IndexFull? ==> FreshInode(v, vol0, ino))
    ensures if r.NotEntered? then d' == WithoutLastBlock(d) && files' == files[di := dir] else d' == d && files' == files
  {
    assert MadeKey(0);
  }

  /** The end of create_file for a file whose clusters have been taken. */
  method EnterTaken(v: Volume, dir: Fcb, q: Request, ino: nat, e0: Inode, dirent: DirEntry, fpos: nat, blk: nat, vers: int,
                    ghost files: map<nat, File>, ghost files2: map<nat, File>, ghost di: nat, ghost d: seq<byte>, ghost vol0: Image, ghost k: nat)
    returns (ok: bool, ghost files': map<nat, File>, ghost d': seq<byte>, ghost e: Inode)
    requires v.Valid() && DirOpen(v, dir.header, files2, di, d) && |v.cache.pins| + 4 <= NBUFFERS && q.Ok() && dirent == MakeEntry(ino, q.fname, q.ext, vers)
    requires IndexAreaOk(v, vol0) && 1 <= ino <= Files(v, vol0) && IndexNow(v, vol0, v.cache.logical, ino, 0, ZeroEntry()) && ino !in files && ino != di && di in files
    requires files2 == files[ino := NewFile(v, q.contiguous, q.csize, blk)] && blk < v.NBlocks() && (!q.contiguous ==> blk == 0)
    requires fpos == ENTRY * k <= |d| && (v.clfactor == 0 || EntryFits(v, dir.header, fpos))
    requires |Used(v, v.cache.logical)| == |Used(v, vol0)| + Clusters(if q.contiguous then q.csize else 0, v.clfactor)
    requires e0 == InodeIn(v, vol0, ino)
    modifies v.cache, v.cache.buffer, dir, dir.header
    ensures v.Valid() && v.cache.Kept(old(v.cache.pins)) && DirOpen(v, dir.header, files', di, d')
    ensures Reaches(v, State(old(v.cache.logical), files2), State(v.cache.logical, files'), {ino, di})
    ensures ok <==> old(EntryFits(v, dir.header, fpos))
    ensures ok ==> v.cache.pins == old(v.cache.pins)
    ensures ok ==> Entered(v, vol0, v.cache.logical, q, files, files', di, FileOf(dir.header), old(HeaderExtent(v, dir.header)), d, d', fpos, ino, e, blk, vers)
    ensures !ok ==> IndexNow(v, vol0, v.cache.logical, ino, 0, ZeroEntry())
    ensures !ok ==> fpos == |d| && |d| % 512 == 0 && v.clfactor == 0 && d' == WithoutLastBlock(d) && files' == files[di := FileOf(dir.header)]
  {
    ghost var vol2, x := v.cache.logical, HeaderExtent(v, dir.header);
    MadeEntry(ino, q.fname, q.ext, vers);
    var inode := BuildInode(e0, q, v.clfactor, blk, vers);
    e := inode;
    assert v.cache.Kept(old(v.cache.pins));
    ok, files', d' := EnterFile(v, dir, q, ino, inode, dirent, fpos, blk, files2, di, d, vol0, k);
    if ok {
      TakenIsEntered(v, vol0, vol2, v.cache.logical, q, files, files', di, FileOf(dir.header), x, d, d', fpos, ino, inode, blk, vers);
    } else {
      AddedAndRemoved(files, ino, NewFile(v, q.contiguous, q.csize, blk), di, FileOf(dir.header));
    }
  }

  lemma TakenIsEntered(v: Volume, vol0: Image, vol2: Image, vol: Image, q: Request, files: map<nat, File>, files': map<nat, File>, di: nat, dir: File,
                       x: Extent, d: seq<byte>, d': seq<byte>, fpos: nat, ino: nat, e: Inode, blk: nat, vers: int)
    requires IndexAreaOk(v, vol0) && q.Ok() && fpos <= |d| && di in files && di != ino && (!q.contiguous ==> blk == 0)
    requires IndexNow(v, vol0, vol, ino, ino, e) && InodeSays(e, q.contiguous, q.Blocks(), 0, 0, blk, 0) && NewFileInode(InodeIn(v, vol0, ino), e, q, v.clfactor, vers)
    requires d' == Overwritten(d, fpos, MakeEntry(ino, q.fname, q.ext, vers)) && files' == files[ino := NewFile(v, q.contiguous, q.csize, blk)][di := dir]
    requires |Used(v, vol2)| == |Used(v, vol0)| + Clusters(if q.contiguous then q.csize else 0, v.clfactor)
    requires |Used(v, vol)| == |Used(v, vol2)| + EntryCost(x, fpos, v.clfactor)
    requires EntryCost(x, fpos, v.clfactor) == 0 ==> Clus(v, dir) == Clus(v, files[di])
    ensures Entered(v, vol0, vol, q, files, files', di, dir, x, d, d', fpos, ino, e, blk, vers)
  {
    assert |Used(v, vol)| == |Used(v, vol0)| + CreateCost(v.clfactor, x, fpos, q);
    assert EntryCost(x, fpos, v.clfactor) == 0 ==> Clus(v, dir) == Clus(v, files[di]);
    assert IndexNow(v, vol0, vol, ino, ino, e);
  }

  /** The second half of create_file, once a place in the directory is known. */
  method MakeEntered(v: Volume, dir: Fcb, q: Request, ino: nat, e0: Inode, fpos: nat, vers: int,
                     ghost files: map<nat, File>, ghost di: nat, ghost d: seq<byte>, ghost vol0: Image, ghost k: nat)
    returns (r: Made, ghost files': map<nat, File>, ghost d': seq<byte>, ghost e: Inode, ghost blkno: nat)
    requires v.Valid() && DirOpen(v, dir.header, files, di, d) && |v.cache.pins| + 4 <= NBUFFERS && q.Ok()
    requires Noticed(v, SpaceFor(v, v.cache.logical, HeaderExtent(v, dir.header), fpos, q))
    requires IndexAreaOk(v, vol0) && 1 <= ino <= Files(v, vol0) && IndexNow(v, vol0, v.cache.logical, ino, 0, ZeroEntry()) && ino !in files && ino != di
    requires fpos == ENTRY * k <= |d| && Used(v, v.cache.logical) == Used(v, vol0)
    requires e0 == InodeIn(v, vol0, ino)
    modifies v.cache, v.cache.buffer, dir, dir.header
    ensures v.Valid() && v.cache.Kept(old(v.cache.pins)) && DirOpen(v, dir.header, files', di, d')
    ensures r == old(SpaceFor(v, v.cache.logical, HeaderExtent(v, dir.header), fpos, q))
    ensures Reaches(v, State(old(v.cache.logical), files), State(v.cache.logical, files'), {ino, di})
    ensures r.Made? ==> v.cache.pins == old(v.cache.pins)
    ensures r.Made? ==>
      Entered(v, vol0, v.cache.logical, q, files, files', di, FileOf(dir.header), old(HeaderExtent(v, dir.header)), d, d', fpos, ino, e, blkno, vers)
    ensures !r.Made? ==> IndexNow(v, vol0, v.cache.logical, ino, 0, ZeroEntry())
    ensures r.NoSpace? ==> files' == files && d' == d && v.cache.pins == old(v.cache.pins)
    ensures r.NotEntered? ==> fpos == |d| && |d| % 512 == 0 && v.clfactor == 0 && d' == WithoutLastBlock(d) && files' == files[di := FileOf(dir.header)]
  {
    ghost var vol1 := v.cache.logical;
    e, d' := ZeroEntry(), d;
    var dirent := MakeEntry(ino, q.fname, q.ext, vers);
    var ok, blk;
    ok, blk, files' := TakeSpace(v, q.contiguous, q.csize, dir.header, files, di, d, ino);
    blkno := blk;
    ghost var vol2, files2 := v.cache.logical, files';
    IndexNowKept(v, vol0, vol1, vol2, ino, 0, ZeroEntry());
    ReachesSame(v, State(vol2, files2), {ino, di});
    r := NoSpace;
    if ok {
      assert v.cache.Kept(old(v.cache.pins));
      ok, files', d', e := EnterTaken(v, dir, q, ino, e0, dirent, fpos, blk, vers, files, files2, di, d, vol0, k);
      r := if ok then Made.Made else NotEntered;
    }
    ReachesOn(v, State(vol1, files), State(vol2, files2), State(v.cache.logical, files'), {ino}, {ino, di}, {ino, di});
  }

  /** create_file from the search for a place in the directory on. */
  method PlaceFile(v: Volume, dir: Fcb, q: Request, ino: nat, e0: Inode, ghost files: map<nat, File>, ghost di: nat, ghost d: seq<byte>, ghost vol0: Image)
    returns (r: Made, vers: int, ghost files': map<nat, File>, ghost d': seq<byte>, ghost e: Inode, ghost blkno: nat)
    requires v.Valid() && DirOpen(v, dir.header, files, di, d) && |v.cache.pins| + 4 <= NBUFFERS && q.Ok()
    requires IndexAreaOk(v, vol0) && InodeLost(v, vol0, v.cache.logical, ino) && ino !in files && ino != di && Used(v, v.cache.logical) == Used(v, vol0)
    requires Noticed(v, CreateOutcome(v, vol0, HeaderExtent(v, dir.header), AllEntries(d), q))
    requires e0 == InodeIn(v, vol0, ino)
    modifies v.cache, v.cache.buffer, dir, dir.header
    ensures v.Valid() && v.cache.Kept(old(v.cache.pins)) && DirOpen(v, dir.header, files', di, d')
    ensures r == CreateOutcome(v, vol0, old(HeaderExtent(v, dir.header)), AllEntries(d), q)
    ensures Reaches(v, State(old(v.cache.logical), files), State(v.cache.logical, files'), {ino, di})
    ensures r.Made? ==> v.cache.pins == old(v.cache.pins) && vers == Highest(AllEntries(d), |AllEntries(d)|, q.fname, q.ext) + 1
    ensures r.Made? ==>
      FileMade(v, vol0, v.cache.logical, q, files, files', di, FileOf(dir.header), old(HeaderExtent(v, dir.header)), AllEntries(d), AllEntries(d'), ino, e, blkno)
    ensures !r.Made? ==> InodeLost(v, vol0, v.cache.logical, ino)
    ensures r.NotEntered? ==> |d| % 512 == 0 && FreeSlot(AllEntries(d), |AllEntries(d)|) == |AllEntries(d)| && d' == WithoutLastBlock(d) && v.clfactor == 0
    ensures r.FileExists? || r.NoSpace? ==> d' == d && files' == files && v.cache.pins == old(v.cache.pins)
    ensures r.NotEntered? ==> files' == files[di := FileOf(dir.header)]
  {
    ghost var k, vol1, x := FreeSlot(AllEntries(d), |AllEntries(d)|), v.cache.logical, HeaderExtent(v, dir.header);
    files', d', e, blkno, vers := files, d, ZeroEntry(), 0, 0;
    FreshIsFree(v, vol0, ino);
    ReachesSame(v, State(vol1, files), {ino, di});
    SpaceSame(v, vol0, vol1, x, EntryPlace(AllEntries(d)), q);
    var clash, fpos, hivers := ScanForCreate(v, dir, q.fname, q.ext, q.vers, d);
    if clash { return FileExists, vers, files', d', e, blkno; }
    vers := hivers + 1;
    SlotInside(d, k);
    assert v.cache.Kept(old(v.cache.pins));
    r, files', d', e, blkno := MakeEntered(v, dir, q, ino, e0, fpos, vers, files, di, d, vol0, k);
    if r.Made? {
      EnteredIsMade(v, vol0, v.cache.logical, q, files, files', di, FileOf(dir.header), x, d, d', fpos, ino, e, blkno, vers);
    } else {
      SlotAtEnd(d, k);
    }
  }

  /** create_file up to the point where the new file is opened.  When anything fails behind the
      search for an inode, the entry found stays marked although its inode is not in use. */
  method MakeFile(v: Volume, dir: Fcb, q: Request, ghost files: map<nat, File>, ghost di: nat, ghost d: seq<byte>)
    returns (r: Made, vers: int, ghost ino: nat, ghost files': map<nat, File>, ghost d': seq<byte>, ghost e: Inode, ghost blkno: nat)
    requires v.Valid() && DirOpen(v, dir.header, files, di, d) && Indexed(v, v.cache.logical, files) && |v.cache.pins| + 4 <= NBUFFERS
    requires q.Ok() && Noticed(v, CreateOutcome(v, v.cache.logical, HeaderExtent(v, dir.header), AllEntries(d), q))
    modifies v.cache, v.cache.buffer, dir, dir.header
    ensures v.Valid() && v.cache.Kept(old(v.cache.pins)) && DirOpen(v, dir.header, files', di, d')
    ensures r == old(CreateOutcome(v, v.cache.logical, HeaderExtent(v, dir.header), AllEntries(d), q))
    ensures Reaches(v, State(old(v.cache.logical), files), State(v.cache.logical, files'), Concerned(r, ino, di)) && (!r.IndexFull? ==> FreshInode(v, old(v.cache.logical), ino))
    ensures r.Made? ==> v.cache.pins == old(v.cache.pins) && vers == Highest(AllEntries(d), |AllEntries(d)|, q.fname, q.ext) + 1
    ensures r.Made? ==>
      FileMade(v, old(v.cache.logical), v.cache.logical, q, files, files', di, FileOf(dir.header), old(HeaderExtent(v, dir.header)), AllEntries(d), AllEntries(d'), ino, e, blkno)
    ensures !r.Made? ==> NotMade(v, old(v.cache.logical), v.cache.logical, r, files, files', di, FileOf(dir.header), d, d', ino)
    ensures r.FileExists? || r.NoSpace? ==> v.cache.pins == old(v.cache.pins)
  {
    ghost var vol0 := v.cache.logical;
    files', d', e, blkno, vers := files, d, ZeroEntry(), 0, 0;
    var num, e0;
    num, e0, ino := TakeInode(v, dir.header, files, di, d);
    ghost var vol1 := v.cache.logical;
    WrittenKeepsUsed(v, vol0, vol1);
    r := IndexFull;
    if num > 0 {
      assert v.cache.Kept(old(v.cache.pins));
      r, vers, files', d', e, blkno := PlaceFile(v, dir, q, num, e0, files, di, d, vol0);
      ReachesOn(v, State(vol0, files), State(vol1, files), State(v.cache.logical, files'), {}, {ino, di}, {ino, di});
    }
  }

  lemma SlotAtEnd(d: seq<byte>, k: nat)
    requires |d| % ENTRY == 0
    ensures ENTRY * k == |d| ==> k == |AllEntries(d)|
  {
  }

  lemma SlotBelow(d: seq<byte>, k: nat)
    requires |d| % ENTRY == 0
    ensures k < |AllEntries(d)| ==> ENTRY * k < |d|
  {
  }

  lemma SlotInside(d: seq<byte>, k: nat)
    requires |d| % ENTRY == 0 && k <= |d| / ENTRY
    ensures ENTRY * k <= |d|
  {
  }

  lemma EnteredIsCreated(d: seq<byte>, ino: nat, fname: seq<byte>, ext: seq<byte>, k: nat, e: DirEntry)
    requires |d| % ENTRY == 0 && |fname| <= 9 && |ext| <= 3
    requires var es := AllEntries(d); k == FreeSlot(es, |es|) && e == NewEntry(es, ino, fname, ext)
    ensures ENTRY * k <= |d| && AllEntries(Overwritten(d, ENTRY * k, e)) == Created(AllEntries(d), ino, fname, ext)
  {
    SlotInside(d, k);
    PutBytes(d, k, e);
  }

  /** All entries lead to inodes of the index file. */
  predicate EntriesInIndex(es: seq<DirEntry>, n: nat)
  {
    forall k: nat :: k < |es| ==> Ino(es[k]) <= n
  }

  /** The search and the rest of open_file. */
  method OpenByName(v: Volume, dir: Fcb, fname: seq<byte>, ext: seq<byte>, vers: int, ghost d: seq<byte>, ghost files: map<nat, File>) returns (h: FcbHeader?)
    requires v.Valid() && DirOk(v, dir.header, d) && |v.cache.pins| < NBUFFERS && |fname| <= 9 && |ext| <= 3
    requires IndexAreaOk(v, v.cache.logical) && EntriesInIndex(AllEntries(d), Files(v, v.cache.logical))
    modifies v.cache, v.cache.buffer, dir
    ensures v.Valid() && v.cache.Kept(old(v.cache.pins)) && v.cache.logical == old(v.cache.logical) && v.cache.pins == old(v.cache.pins)
    ensures var es := AllEntries(d);
      var r := Chosen(es, |es|, fname, ext, vers);
      && (h == null <==> r < 0 || LinkCount(InodeIn(v, v.cache.logical, Ino(es[r]))) == 0)
      && (h != null ==> fresh(h) && h.inode == Ino(es[r]) && Loaded(h, InodeIn(v, v.cache.logical, h.inode)))
    ensures h != null && h.inode in files ==> h.slots == files[h.inode].slots && h.maps == files[h.inode].maps
  {
    ghost var es := AllEntries(d);
    var found, dirent := FindFile(v, dir, fname, ext, vers, d);
    FoundIsHit(es, |es|, fname, ext, vers);
    if !found { return null; }
    var ino := Get16(dirent, 0);
    InodeInIndex(v, v.cache.logical, ino);
    ghost var f := if ino in files then files[ino] else File(false, 0, 0, [], [], []);
    assert v.cache.Kept(old(v.cache.pins));
    h := LoadHeader(v, ino, f.slots, f.maps);
  }

  lemma {:induction false} FoundIsHit(es: seq<DirEntry>, n: nat, fname: seq<byte>, ext: seq<byte>, vers: int)
    requires n <= |es|
    ensures var r := Chosen(es, n, fname, ext, vers); r >= 0 ==> Hit(es[r], fname, ext, vers)
  {
    if n > 0 { FoundIsHit(es, n - 1, fname, ext, vers); }
  }

  lemma {:induction false} IndexedAfter(v: Volume, vol0: Image, vol: Image, files: map<nat, File>, files': map<nat, File>, marked: nat, ino: nat, e: Inode)
    requires IndexAreaOk(v, vol0) && Indexed(v, vol0, files) && IndexNow(v, vol0, vol, marked, ino, e)
    requires ino == 0 || (1 <= ino <= Files(v, vol0) && LinkCount(e) > 0)
    requires forall i :: i in files' ==> i in files || (i == ino && ino > 0)
    ensures Indexed(v, vol, files')
  {
    forall m: nat | m in files' ensures 1 <= m <= Files(v, vol) && LinkCount(InodeAt(v, vol, m)) > 0 {
      assert m in files ==> 1 <= m <= Files(v, vol0) && LinkCount(InodeAt(v, vol0, m)) > 0 by { assert IndexKey(0); }
      IndexEntryNow(v, vol0, vol, marked, ino, e, m);
    }
  }

  lemma CreatedInIndex(es: seq<DirEntry>, ino: nat, fname: seq<byte>, ext: seq<byte>, n: nat)
    requires |fname| <= 9 && |ext| <= 3 && IsString(fname) && IsString(ext) && ino <= n < 0x1_0000 && EntriesInIndex(es, n)
    ensures EntriesInIndex(Created(es, ino, fname, ext), n)
    ensures Ino(Created(es, ino, fname, ext)[FreeSlot(es, |es|)]) == ino
  {
    MadeEntry(ino, fname, ext, Highest(es, |es|, fname, ext) + 1);
  }

  /** The header of the new file is that of a sound, empty file. */
  lemma OpenedNew(v: Volume, h: FcbHeader, files: map<nat, File>, e: Inode, q: Request, blkno: nat)
    requires VolumeOk(v, v.cache.logical, files) && h.inode in files && files[h.inode] == NewFile(v, q.contiguous, q.csize, blkno)
    requires (!q.contiguous ==> blkno == 0) && InodeSays(e, q.contiguous, q.Blocks(), 0, 0, blkno, 0) && Loaded(h, e)
    requires h.slots == files[h.inode].slots && h.maps == files[h.inode].maps
    ensures FileOf(h) == files[h.inode] && FileOk(v, h)
  {
    assert Sound(v, v.cache.logical, files[h.inode]) by { assert RunKey(0); }
  }

  /** The inode of the file that was found under the name before. */
  ghost predicate OldFileOf(es: seq<DirEntry>, q: Request, ino: nat)
  {
    var r := Chosen(es, |es|, q.fname, q.ext, 0);
    r >= 0 && ino == Ino(es[r])
  }

  /** The name that create_file hands to open_file, as open_file understands it. */
  function Reopened(q: Request, vers: int): Parsed
  {
    Parse(NewName(q.dir, q.fname, q.ext, Directory.Short(vers)))
  }

  lemma ReopenedIs(q: Request, vers: int)
    requires q.Ok()
    ensures q.Plain() <==> Reopened(q, vers) == Name(q.dir, q.fname, q.ext, Directory.Short(vers))
    ensures Reopened(q, vers).Name? ==> |Reopened(q, vers).fname| <= 9 && |Reopened(q, vers).ext| <= 3
  {
    NewNameParses(Name(q.dir, q.fname, q.ext, vers), Directory.Short(vers));
    if Reopened(q, vers).Name? { ParsedIsClean(NewName(q.dir, q.fname, q.ext, Directory.Short(vers))); }
  }

  /** The inode that a search for the parsed name finds. */
  ghost predicate OpenedAs(es: seq<DirEntry>, name: Parsed, ino: nat)
  {
    name.Name? && |name.fname| <= 9 && |name.ext| <= 3 &&
    var r := Chosen(es, |es|, name.fname, name.ext, name.vers);
    r >= 0 && ino == Ino(es[r])
  }

  /** What create_file returns, after entry ino with inode e has been made in the directory: the new
      file, if its name is plain, unless its version has overflowed; nothing if the name is refused,
      or if it leads to another directory. */
  ghost predicate Opens(v: Volume, q: Request, vers: int, files: map<nat, File>, es: seq<DirEntry>, es': seq<DirEntry>, h: FcbHeader?, elsewhere: bool, ino: nat, e: Inode)
    reads h, v.cache
  {
    && (q.Plain() && vers < 0x8000 ==> h != null && h.inode == ino && ino in files && FileOf(h) == files[ino] && FileOk(v, h) && Loaded(h, e))
    && (q.Plain() && vers == 0x8000 && h != null ==> OldFileOf(es, q, h.inode))
    && (elsewhere <==> Reopened(q, vers).Name? && Reopened(q, vers).dir != q.dir)
    && (Reopened(q, vers).Invalid? || elsewhere ==> h == null)
    && (h != null ==> OpenedAs(es', Reopened(q, vers), h.inode))
  }

  /** open_file of the file just created, by its full name.  A name that starts with a bracket of its
      own is refused, or leads to another file of the directory, or into another directory. */
  method OpenCreated(v: Volume, dir: Fcb, q: Request, vers: int, ghost files: map<nat, File>, ghost d: seq<byte>, ghost es: seq<DirEntry>, ghost ino: nat, ghost e: Inode, ghost blkno: nat)
    returns (h: FcbHeader?, elsewhere: bool)
    requires v.Valid() && VolumeOk(v, v.cache.logical, files) && DirOk(v, dir.header, d) && |v.cache.pins| < NBUFFERS && q.Ok()
    requires IndexAreaOk(v, v.cache.logical) && 1 <= ino <= Files(v, v.cache.logical) && InodeIn(v, v.cache.logical, ino) == e
    requires AllEntries(d) == Created(es, ino, q.fname, q.ext) && EntriesInIndex(es, Files(v, v.cache.logical)) && vers == Highest(es, |es|, q.fname, q.ext) + 1
    requires ino in files && files[ino] == NewFile(v, q.contiguous, q.csize, blkno) && (!q.contiguous ==> blkno == 0)
    requires InodeSays(e, q.contiguous, q.Blocks(), 0, 0, blkno, 0)
    modifies v.cache, v.cache.buffer, dir
    ensures v.Valid() && v.cache.Kept(old(v.cache.pins)) && v.cache.logical == old(v.cache.logical) && v.cache.pins == old(v.cache.pins)
    ensures (h != null ==> fresh(h)) && Opens(v, q, vers, files, es, AllEntries(d), h, elsewhere, ino, e)
  {
    CreatedInIndex(es, ino, q.fname, q.ext, Files(v, v.cache.logical));
    CreatedIsFound(es, ino, q.fname, q.ext);
    ReopenedIs(q, vers);
    var name := Parse(NewName(q.dir, q.fname, q.ext, Directory.Short(vers)));
    h, elsewhere := null, name.Name? && name.dir != q.dir;
    if name.Invalid? || elsewhere { return; }
    h := OpenByName(v, dir, name.fname, name.ext, name.vers, d, files);
    if q.Plain() {
      if vers < 0x8000 {
        OpenedNew(v, h, files, e, q, blkno);
      } else {
        OverflowedOld(es, ino, q);
      }
    }
  }

  /** The old entry is still in its place. */
  lemma OverflowedOld(es: seq<DirEntry>, ino: nat, q: Request)
    requires q.Ok() && 0 < ino < 0x1_0000
    ensures var r, c := Created(es, ino, q.fname, q.ext), Chosen(es, |es|, q.fname, q.ext, 0); c >= 0 ==> r[c] == es[c]
  {
    FoundIsHit(es, |es|, q.fname, q.ext, 0);
  }

  /** What the rest of create_file needs to know about the new file. */
  lemma {:induction false} MadeIsIndexed(v: Volume, vol0: Image, vol: Image, q: Request, files: map<nat, File>, files': map<nat, File>, di: nat, dir: File,
                      x: Extent, es: seq<DirEntry>, es': seq<DirEntry>, ino: nat, e: Inode, blkno: nat)
    requires IndexAreaOk(v, vol0) && q.Ok() && di in files && Indexed(v, vol0, files)
    requires FileMade(v, vol0, vol, q, files, files', di, dir, x, es, es', ino, e, blkno)
    ensures IndexAreaOk(v, vol) && Files(v, vol) == Files(v, vol0) && Indexed(v, vol, files') && 1 <= ino <= Files(v, vol) && InodeIn(v, vol, ino) == e
    ensures es' == Created(es, ino, q.fname, q.ext)
    ensures ino in files' && files'[ino] == NewFile(v, q.contiguous, q.csize, blkno) && (!q.contiguous ==> blkno == 0)
    ensures InodeSays(e, q.contiguous, q.Blocks(), 0, 0, blkno, 0)
  {
    assert MadeKey(0);
    IndexedAfter(v, vol0, vol, files, files', ino, ino, e);
    IndexEntryNow(v, vol0, vol, ino, ino, e, ino);
  }

  /** create_file.  What it returns is known beforehand.  On success the directory holds the next
      version of the name in its first free place, the inode and the clusters of the file are recorded,
      nothing belongs to two files, and the new file is open, unless its version has overflowed: then
      the old file is open; or its name starts with a bracket: then it is not opened. */
  method CreateFile(v: Volume, dir: Fcb, q: Request, ghost files: map<nat, File>, ghost di: nat, ghost d: seq<byte>)
    returns (h: FcbHeader?, elsewhere: bool, r: Made, vers: int, ghost ino: nat, ghost files': map<nat, File>, ghost d': seq<byte>, ghost e: Inode, ghost blkno: nat)
    requires v.Valid() && DirOpen(v, dir.header, files, di, d) && Indexed(v, v.cache.logical, files) && |v.cache.pins| + 4 <= NBUFFERS
    requires q.Ok() && Noticed(v, CreateOutcome(v, v.cache.logical, HeaderExtent(v, dir.header), AllEntries(d), q))
    requires EntriesInIndex(AllEntries(d), Files(v, v.cache.logical))
    modifies v.cache, v.cache.buffer, dir, dir.header
    ensures v.Valid() && v.cache.Kept(old(v.cache.pins)) && DirOpen(v, dir.header, files', di, d') && Indexed(v, v.cache.logical, files')
    ensures r == old(CreateOutcome(v, v.cache.logical, HeaderExtent(v, dir.header), AllEntries(d), q))
    ensures Reaches(v, State(old(v.cache.logical), files), State(v.cache.logical, files'), Concerned(r, ino, di)) && (!r.IndexFull? ==> FreshInode(v, old(v.cache.logical), ino))
    ensures !r.Made? ==> h == null
    ensures r.Made? ==> v.cache.pins == old(v.cache.pins) && vers == Highest(AllEntries(d), |AllEntries(d)|, q.fname, q.ext) + 1
    ensures r.Made? ==>
      FileMade(v, old(v.cache.logical), v.cache.logical, q, files, files', di, FileOf(dir.header), old(HeaderExtent(v, dir.header)), AllEntries(d), AllEntries(d'), ino, e, blkno)
    ensures r.Made? ==> (h != null ==> fresh(h)) && Opens(v, q, vers, files', AllEntries(d), AllEntries(d'), h, elsewhere, ino, e)
    ensures !r.Made? ==> NotMade(v, old(v.cache.logical), v.cache.logical, r, files, files', di, FileOf(dir.header), d, d', ino)
    ensures r.FileExists? || r.NoSpace? ==> v.cache.pins == old(v.cache.pins)
  {
    ghost var vol0, x := v.cache.logical, HeaderExtent(v, dir.header);
    h, elsewhere := null, false;
    r, vers, ino, files', d', e, blkno := MakeFile(v, dir, q, files, di, d);
    if r.Made? {
      assert v.cache.Kept(old(v.cache.pins));
      h, elsewhere := OpenMade(v, dir, q, vers, files, files', di, x, d, d', ino, e, blkno, vol0);
    } else {
      NotMadeFacts(v, vol0, v.cache.logical, r, files, files', di, FileOf(dir.header), d, d', ino);
      IndexedAfter(v, vol0, v.cache.logical, files, files', ino, 0, ZeroEntry());
    }
  }

  /** open_file of the file just made. */
  method OpenMade(v: Volume, dir: Fcb, q: Request, vers: int, ghost files: map<nat, File>, ghost files': map<nat, File>, ghost di: nat, ghost x: Extent,
                  ghost d: seq<byte>, ghost d': seq<byte>, ghost ino: nat, ghost e: Inode, ghost blkno: nat, ghost vol0: Image)
    returns (h: FcbHeader?, elsewhere: bool)
    requires v.Valid() && DirOpen(v, dir.header, files', di, d') && di in files && |v.cache.pins| < NBUFFERS && q.Ok()
    requires IndexAreaOk(v, vol0) && Indexed(v, vol0, files) && EntriesInIndex(AllEntries(d), Files(v, vol0))
    requires FileMade(v, vol0, v.cache.logical, q, files, files', di, FileOf(dir.header), x, AllEntries(d), AllEntries(d'), ino, e, blkno)
    requires vers == Highest(AllEntries(d), |AllEntries(d)|, q.fname, q.ext) + 1
    modifies v.cache, v.cache.buffer, dir
    ensures v.Valid() && v.cache.Kept(old(v.cache.pins)) && v.cache.logical == old(v.cache.logical) && v.cache.pins == old(v.cache.pins)
    ensures (h != null ==> fresh(h)) && Opens(v, q, vers, files', AllEntries(d), AllEntries(d'), h, elsewhere, ino, e)
    ensures DirOpen(v, dir.header, files', di, d') && Indexed(v, v.cache.logical, files')
  {
    MadeIsIndexed(v, vol0, v.cache.logical, q, files, files', di, FileOf(dir.header), x, AllEntries(d), AllEntries(d'), ino, e, blkno);
    h, elsewhere := OpenCreated(v, dir, q, vers, files', d', AllEntries(d), ino, e, blkno);
  }
}
