/** The life of a file: the import command of main.c, which creates, writes and closes it, and
    delete_file.  Together they leave the index, the result of every search, and the cluster bitmap as
    they were, unless the directory has grown. */
module FileLife {
  import opened Bytes
  import opened BufferCache
  import opened Volumes
  import opened Allocation
  import opened FileMap
  import opened FileGrowth
  import opened Footprint
  import opened FileContent
  import opened FileExtension
  import opened StreamIo
  import opened StreamWrite
  import opened StreamLaws
  import opened FileTransfer
  import opened VolumeRuns
  import opened VolumeSteps
  import opened Deletion
  import opened Inodes
  import opened IndexArea
  import opened VolumeHistory
  import opened Directory
  import opened DirectoryFiles
  import opened FileCreation
  import opened Checker
  import opened FileDeletion

  // ---------------------------------------------------------------
  // Headers fit into inodes
  // ---------------------------------------------------------------

  ghost function SetOf(s: seq<nat>): set<nat>
  {
    set c | c in s
  }

  lemma {:induction false} DistinctSize(s: seq<nat>)
    requires forall i: nat, j: nat :: i < j < |s| ==> s[i] != s[j]
    ensures |SetOf(s)| == |s|
  {
    if s == [] {
      assert SetOf(s) == {};
    } else {
      var r, c := s[..|s| - 1], s[|s| - 1];
      DistinctSize(r);
      assert s == r + [c] && c !in r;
      assert SetOf(s) == SetOf(r) + {c};
    }
  }

  lemma {:induction false} BlocksOfClusters(n: nat, e: nat, cf: nat)
    requires Clusters(n, cf) <= e
    ensures n <= Shl(e, cf)
  {
    SplitBlock(n, cf);
    ShlSucc(Shr(n, cf), cf);
    ShlMonotone(Clusters(n, cf), e, cf);
  }

  lemma {:induction false} SlotsFit(v: Volume, slots: seq<nat>, maps: seq<nat>)
    requires Placed(v, slots, maps)
    ensures Shl(|slots|, v.clfactor) <= v.NBlocks()
  {
    assert PlaceKey(0);
    DistinctSize(slots);
    BoundedSize(SetOf(slots), v.NClusters());
    ShlMonotone(|slots|, v.NClusters(), v.clfactor);
    SplitBlock(v.NBlocks(), v.clfactor);
  }

  /** The fields of a file in order fit into its inode. */
  lemma {:induction false} HeaderFits(v: Volume, vol: Image, contiguous: bool, nalloc: nat, nused: nat, bmap: seq<nat>, slots: seq<nat>, maps: seq<nat>)
    requires FileState(v, vol, contiguous, nalloc, nused, bmap, slots, maps) && v.NBlocks() <= MAX_BLOCKS
    ensures nalloc <= MAX_BLOCKS && nused <= MAX_BLOCKS && (!contiguous ==> forall k: nat :: k < 6 ==> bmap[k] < 0x100_0000)
  {
    StateFacts(v, vol, contiguous, nalloc, nused, bmap, slots, maps);
    SlotsFit(v, slots, maps);
    assert FileKey(0);
    BlocksOfClusters(nalloc, |slots|, v.clfactor);
    if !contiguous {
      BlocksOfClusters(nused, |slots|, v.clfactor);
      assert ChainKey(0);
      PointersFit(v, vol, bmap, slots, maps);
    }
  }

  lemma {:induction false} PointersFit(v: Volume, vol: Image, bmap: seq<nat>, slots: seq<nat>, maps: seq<nat>)
    requires Mapped(v, vol, bmap, slots, maps) && Placed(v, slots, maps) && SystemArea(v, vol) && v.NBlocks() <= MAX_BLOCKS
    ensures forall k: nat :: k < 6 ==> bmap[k] < 0x100_0000
  {
    MappedDirect(v, vol, bmap, slots, maps);
    assert v.fileArea > 0 by { assert BitsKey(0); }
    LinkPresent(v, slots, maps, 0);
    forall k: nat | k < 5 ensures bmap[k] < 0x100_0000 {
      if k < |slots| {
        assert PlaceKey(0);
        BlockInVolume(v, slots[k], 0);
      }
    }
  }

  // ---------------------------------------------------------------
  // Writing and closing the new file
  // ---------------------------------------------------------------

  /** The pointers of a contiguous file fit into an inode. */
  ghost predicate Pointed(h: FcbHeader)
    reads h
  {
    |h.bmap| == 6 && (h.contiguous ==> forall k: nat :: k < 6 ==> h.bmap[k] < 0x100_0000)
  }

  lemma LoadedPointed(h: FcbHeader, e: Inode)
    requires Loaded(h, e)
    ensures Pointed(h)
  {
  }

  /** All of the header fits into an inode. */
  ghost predicate Savable(h: FcbHeader)
    reads h
  {
    h.nalloc < 0x100_0000 && h.nused < 0x100_0000 && h.lbcount <= 512 && |h.bmap| == 6 && forall k: nat :: k < 6 ==> h.bmap[k] < 0x100_0000
  }

  lemma OkIsSavable(v: Volume, h: FcbHeader)
    requires v.Valid() && FileOk(v, h) && Pointed(h)
    ensures Savable(h) && h.nalloc <= MAX_BLOCKS
  {
    HeaderFits(v, v.cache.logical, h.contiguous, h.nalloc, h.nused, h.bmap, h.slots, h.maps);
  }

  /** Clusters for n bytes of a new file that is not contiguous. */
  function NewCost(n: nat, cf: nat): nat
  {
    if n == 0 then 0 else Cost(Extent(0, 0, 0, 0), BlocksAfter(0, 0, n), cf)
  }

  /** n bytes fit into the empty file h. */
  ghost predicate FitsNew(v: Volume, h: FcbHeader, n: nat)
    reads h, v.cache
  {
    n == 0 || if h.contiguous then n <= 512 * h.nalloc else Affordable(v, v.cache.logical, HeaderExtent(v, h), BlocksAfter(0, 0, n))
  }

  /** After a write, complete or cut short, the file is sound: one more step of the volume. */
  lemma WroteIsStep(v: Volume, vol: Image, files: map<nat, File>, i: nat, f: File, vol': Image)
    requires VolumeOk(v, vol, files) && i in files && Wrote(v, vol, files[i].slots, files[i].maps, vol', f.slots, f.maps)
    requires Sound(v, vol', f) || (f.contiguous && f == files[i].(nused := f.nused))
    ensures Step(v, State(vol, files), Grow(i, f), State(vol', files[i := f]))
  {
    assert Sound(v, vol, files[i]) by { assert RunKey(0); }
    if !Sound(v, vol', f) { RunIsSound(v, vol, files[i], vol', f.nused); }
  }

  /** A file that owns what it owned has taken nothing. */
  lemma SameOwned(v: Volume, vol: Image, g: File, vol': Image, f: File)
    requires Wrote(v, vol, g.slots, g.maps, vol', f.slots, f.maps) && f.slots == g.slots && f.maps == g.maps
    ensures Used(v, vol') == Used(v, vol)
  {
    assert WroteKey(0);
  }

  /** file_write of all bytes of a host file from position 0 of a new file. */
  method FillNew(v: Volume, h: FcbHeader, host: seq<byte>, chunk: nat) returns (ok: bool)
    requires v.Valid() && FileOk(v, h) && |v.cache.pins| + 2 <= NBUFFERS && chunk > 0 && h.nused == h.lbcount == 0 && Pointed(h)
    requires (h.contiguous || (h.slots == [] && h.maps == [])) && (h.contiguous || v.clfactor == 0 || FitsNew(v, h, |host|))
    modifies v.cache, v.cache.buffer, h
    ensures v.Valid() && v.cache.Kept(old(v.cache.pins)) && Savable(h)
    ensures Wrote(v, old(v.cache.logical), old(h.slots), old(h.maps), v.cache.logical, h.slots, h.maps)
    ensures Sound(v, v.cache.logical, FileOf(h)) || (h.contiguous && FileOf(h) == old(FileOf(h)).(nused := h.nused))
    ensures ok <==> old(FitsNew(v, h, |host|))
    ensures ok ==> v.cache.pins == old(v.cache.pins) && FileOk(v, h) && Content(v, h) == host
    ensures ok ==> |Used(v, v.cache.logical)| == |Used(v, old(v.cache.logical))| + if h.contiguous then 0 else NewCost(|host|, v.clfactor)
    ensures !ok ==> v.cache.pins == old(v.cache.pins) + if h.contiguous then multiset{} else multiset{LeakedBlock(v)}
  {
    ghost var vol, f := v.cache.logical, FileOf(h);
    OkIsSavable(v, h);
    var fcb := new Fcb(h);
    assert v.cache.Kept(old(v.cache.pins));
    assert Content(v, h) == [];
    ok := Import(v, fcb, host, chunk);
    if FileOk(v, h) {
      OkIsSavable(v, h);
      FileOkIsSound(v, h);
    }
    if h.contiguous { SameOwned(v, vol, f, v.cache.logical, FileOf(h)); }
  }

  /** The bytes of a host file are written to a new file. */
  method WriteNew(v: Volume, h: FcbHeader, host: seq<byte>, chunk: nat, ghost dir: FcbHeader, ghost files: map<nat, File>, ghost di: nat, ghost d: seq<byte>)
    returns (ok: bool, ghost files': map<nat, File>)
    requires v.Valid() && DirOpen(v, dir, files, di, d) && |v.cache.pins| + 2 <= NBUFFERS && chunk > 0
    requires h != dir && h.inode != di && h.inode in files && files[h.inode] == FileOf(h) && FileOk(v, h) && h.nused == h.lbcount == 0 && Pointed(h)
    requires (h.contiguous || (h.slots == [] && h.maps == [])) && (h.contiguous || v.clfactor == 0 || FitsNew(v, h, |host|))
    modifies v.cache, v.cache.buffer, h
    ensures v.Valid() && v.cache.Kept(old(v.cache.pins)) && Savable(h)
    ensures ok <==> old(FitsNew(v, h, |host|))
    ensures ok ==> v.cache.pins == old(v.cache.pins) && FileOk(v, h) && Content(v, h) == host
    ensures ok ==> |Used(v, v.cache.logical)| == |Used(v, old(v.cache.logical))| + if h.contiguous then 0 else NewCost(|host|, v.clfactor)
    ensures !ok ==> v.cache.pins == old(v.cache.pins) + if h.contiguous then multiset{} else multiset{LeakedBlock(v)}
    ensures files' == files[h.inode := FileOf(h)] && DirOpen(v, dir, files', di, d)
    ensures IndexAreaOk(v, old(v.cache.logical)) && IndexKept(v, old(v.cache.logical), v.cache.logical)
    ensures Reaches(v, State(old(v.cache.logical), files), State(v.cache.logical, files'), {h.inode})
  {
    ghost var vol := v.cache.logical;
    ok := FillNew(v, h, host, chunk);
    files' := files[h.inode := FileOf(h)];
    FilledStep(v, vol, files, h.inode, FileOf(h), v.cache.logical, dir, di, d);
  }

  lemma FilledStep(v: Volume, vol: Image, files: map<nat, File>, i: nat, f: File, vol': Image, dir: FcbHeader, di: nat, d: seq<byte>)
    requires VolumeOk(v, vol, files) && i in files && i != di && di in files && files[di] == FileOf(dir) && IndexAreaOk(v, vol)
    requires dir.lbcount <= 512 && !dir.contiguous && FirstBytes(v, vol, dir.slots, dir.nused, |d|, d)
    requires Wrote(v, vol, files[i].slots, files[i].maps, vol', f.slots, f.maps) && (Sound(v, vol', f) || (f.contiguous && f == files[i].(nused := f.nused)))
    ensures var files' := files[i := f];
      && VolumeOk(v, vol', files') && files'[di] == files[di] && IndexAreaOk(v, vol') && IndexKept(v, vol, vol') && Sound(v, vol', files[di])
      && FirstBytes(v, vol', dir.slots, dir.nused, |d|, d) && Reaches(v, State(vol, files), State(vol', files'), {i})
  {
    WroteIsStep(v, vol, files, i, f, vol');
    DirKeptByStep(v, State(vol, files), Grow(i, f), State(vol', files[i := f]), di, |d|, d);
    ReachesOne(v, State(vol, files), OfFile(Grow(i, f)), State(vol', files[i := f]), {i});
  }

  /** The inode that close_file writes says what the file is. */
  lemma ClosedAgrees(e: Inode, f: File, lbcount: nat, date: seq<byte>)
    requires |f.bmap| == 6 && |date| == 7 && f.nalloc < 0x100_0000 && f.nused < 0x100_0000 && lbcount <= 512 && f.contiguous == IsContiguous(e)
    requires forall k: nat :: k < 6 ==> f.bmap[k] < 0x100_0000
    ensures var r := Saved(e, f.nalloc, f.nused, lbcount, f.bmap, date);
      Agrees(f, r) && LinkCount(r) == LinkCount(e) && UsedBlocks(r) == f.nused && LastBytes(r) == lbcount && SameIdentity(e, r)
  {
    SavedFields(e, f.nalloc, f.nused, lbcount, f.bmap, date);
  }

  lemma InodeClosed(v: Volume, vol0: Image, vol: Image, files: map<nat, File>, ino: nat, e: Inode, e': Inode)
    requires IndexAreaOk(v, vol0) && 1 <= ino <= Files(v, vol0) && IndexNow(v, vol0, vol, ino, ino, e)
    ensures IndexAreaOk(v, vol) && InodeBlock(v, ino) < |vol| && InodeAt(v, vol, ino) == e
    ensures var vol' := WithInode(v, vol, ino, e');
      IndexNow(v, vol0, vol', ino, ino, e') && IndexWritten(v, vol, vol') && Reaches(v, State(vol, files), State(vol', files), {ino})
  {
    IndexEntryNow(v, vol0, vol, ino, ino, e, ino);
    IndexEntered(v, vol0, vol, ino, ino, e, ino, e');
    ReachesOne(v, State(vol, files), Enter(ino, e'), State(WithInode(v, vol, ino, e'), files), {ino});
  }

  /** close_file of the new file. */
  method CloseNew(v: Volume, h: FcbHeader, date: seq<byte>, ghost dir: FcbHeader, ghost files: map<nat, File>, ghost di: nat, ghost d: seq<byte>,
                  ghost vol0: Image, ghost e: Inode)
    returns (ghost e': Inode)
    requires v.Valid() && DirOpen(v, dir, files, di, d) && |v.cache.pins| < NBUFFERS && |date| == 7
    requires h.inode in files && files[h.inode] == FileOf(h) && Savable(h)
    requires IndexAreaOk(v, vol0) && 1 <= h.inode <= Files(v, vol0) && IndexNow(v, vol0, v.cache.logical, h.inode, h.inode, e)
    requires LinkCount(e) == 1 && IsContiguous(e) == h.contiguous
    modifies v.cache, v.cache.buffer
    ensures v.Valid() && v.cache.Kept(old(v.cache.pins)) && v.cache.pins == old(v.cache.pins) && DirOpen(v, dir, files, di, d)
    ensures IndexNow(v, vol0, v.cache.logical, h.inode, h.inode, e') && Agrees(files[h.inode], e') && LinkCount(e') == 1
    ensures UsedBlocks(e') == h.nused && LastBytes(e') == h.lbcount && SameIdentity(e, e')
    ensures Reaches(v, State(old(v.cache.logical), files), State(v.cache.logical, files), {h.inode})
    ensures IndexAreaOk(v, old(v.cache.logical)) && IndexWritten(v, old(v.cache.logical), v.cache.logical)
  {
    ghost var vol := v.cache.logical;
    e' := Saved(e, h.nalloc, h.nused, h.lbcount, h.bmap, date);
    ClosedAgrees(e, FileOf(h), h.lbcount, date);
    InodeClosed(v, vol0, vol, files, h.inode, e, e');
    var ok := CloseFile(v, h, date);
    DirKeptByIndex(v, vol, v.cache.logical, files, di, |d|, d);
  }

  // ---------------------------------------------------------------
  // The new entry is the only one of its version
  // ---------------------------------------------------------------

  lemma {:induction false} FirstHitIs(es: seq<DirEntry>, n: nat, fname: seq<byte>, ext: seq<byte>, vers: int, k: nat)
    requires k < n <= |es| && Hit(es[k], fname, ext, vers) && forall j: nat :: j < n && Hit(es[j], fname, ext, vers) ==> j == k
    ensures FirstHit(es, n, fname, ext, vers) == k
  {
  }

  lemma OnlyHit(es: seq<DirEntry>, ino: nat, fname: seq<byte>, ext: seq<byte>)
    requires |fname| <= 9 && |ext| <= 3 && IsString(fname) && IsString(ext) && 0 < ino < 0x1_0000 && Highest(es, |es|, fname, ext) < 0x7FFF
    ensures var r, k, vers := Created(es, ino, fname, ext), FreeSlot(es, |es|), Highest(es, |es|, fname, ext) + 1;
      && FirstHit(r, |r|, fname, ext, vers) == k && Ino(r[k]) == ino
      && forall j: nat :: j < |r| && Hit(r[j], fname, ext, vers) ==> j == k
  {
    var r, k, vers := Created(es, ino, fname, ext), FreeSlot(es, |es|), Highest(es, |es|, fname, ext) + 1;
    MadeEntry(ino, fname, ext, vers);
    HighestIsChosen(es, |es|, fname, ext);
    ChosenIsHighest(es, |es|, fname, ext);
    forall j: nat | j < |es| ensures !Hit(es[j], fname, ext, vers) {
      assert Hit(es[j], fname, ext, 0) ==> Version(es[j]) < vers;
    }
    FirstHitIs(r, |r|, fname, ext, vers, k);
  }

  // ---------------------------------------------------------------
  // What is left is what was there
  // ---------------------------------------------------------------

  lemma SameOwner(v: Volume, files: map<nat, File>, i: nat, f: File)
    requires i in files && Clus(v, f) == Clus(v, files[i])
    ensures AllClus(v, files[i := f]) == AllClus(v, files)
  {
    AllClusWith(v, files, i, f);
    AllClusWith(v, files, i, files[i]);
    assert files[i := files[i]] == files;
  }

  /** Inode m and its bit are what they were, except that inode ino lies unused. */
  ghost predicate EntryRestored(v: Volume, vol0: Image, vol: Image, ino: nat, m: nat)
    requires IndexAreaOk(v, vol0) && IndexAreaOk(v, vol) && m >= 1
  {
    && Bit(vol, IxBitmap(v, vol0), m - 1) == Bit(vol0, IxBitmap(v, vol0), m - 1)
    && (if m == ino then LinkCount(InodeIn(v, vol, m)) == 0 else InodeIn(v, vol, m) == InodeIn(v, vol0, m))
  }

  lemma {:induction false} IndexRestored(v: Volume, vol0: Image, vol3: Image, vol4: Image, ino: nat, e3: Inode, e4: Inode, m: nat)
    requires IndexAreaOk(v, vol0) && MarkedIfLinked(v, vol0) && FreshInode(v, vol0, ino)
    requires IndexNow(v, vol0, vol3, ino, ino, e3) && IndexFreed(v, vol3, vol4, ino, e4) && LinkCount(e4) == 0 && 1 <= m <= Files(v, vol0)
    ensures IndexAreaOk(v, vol4) && EntryRestored(v, vol0, vol4, ino, m)
  {
    IndexEntryNow(v, vol0, vol3, ino, ino, e3, m);
    InodeInIndex(v, vol3, m);
    InodeInIndex(v, vol4, m);
    InodeInIndex(v, vol0, m);
    assert InodeAt(v, vol4, m) == (if m == ino then e4 else InodeAt(v, vol3, m))
      && Bit(vol4, IxBitmap(v, vol3), m - 1) == (m != ino && Bit(vol3, IxBitmap(v, vol3), m - 1)) by { assert IndexKey(0); }
    if m < ino {
      assert Bit(vol0, IxBitmap(v, vol0), m - 1) || LinkCount(InodeAt(v, vol0, m)) != 0 by {
        assert InodeKey(0);
        assert m == (m - 1) + 1;
      }
      assert InodeIn(v, vol0, m) == InodeAt(v, vol0, m);
    }
  }

  // ---------------------------------------------------------------
  // The whole life of a file
  // ---------------------------------------------------------------

  /** Index and searches are what they were. */
  ghost predicate Restored(v: Volume, vol0: Image, vol: Image, es: seq<DirEntry>, es': seq<DirEntry>, ino: nat)
    requires IndexAreaOk(v, vol0)
  {
    && |vol| == |vol0| && IndexAreaOk(v, vol)
    && (forall m: nat :: 1 <= m <= Files(v, vol0) ==> EntryRestored(v, vol0, vol, ino, m))
    && forall fname: seq<byte>, ext: seq<byte>, vers: int :: Chosen(es', |es'|, fname, ext, vers) == Chosen(es, |es|, fname, ext, vers)
  }

  /** The cluster bitmap is, byte for byte, what it was. */
  ghost predicate SameBitmap(v: Volume, vol0: Image, vol: Image)
  {
    |vol| == |vol0| && forall b: nat :: b < |vol0| && InBitmap(v, b) ==> vol[b] == vol0[b]
  }

  lemma {:induction false} SameBitmapSameUsed(v: Volume, vol0: Image, vol: Image)
    requires SameBitmap(v, vol0, vol)
    ensures Used(v, vol) == Used(v, vol0)
  {
    forall c: nat | c < v.NClusters() ensures Bit(vol, v.bmblock, c) == Bit(vol0, v.bmblock, c) {
      BitBlockOfCluster(v, c);
    }
  }

  lemma LifeRestores(v: Volume, vol0: Image, vol3: Image, vol4: Image, es: seq<DirEntry>, q: Request, ino: nat, e3: Inode)
    requires IndexAreaOk(v, vol0) && MarkedIfLinked(v, vol0) && FreshInode(v, vol0, ino) && q.Ok()
    requires IndexNow(v, vol0, vol3, ino, ino, e3) && IndexFreed(v, vol3, vol4, ino, Set16(e3, 0, 0))
    ensures var r, k := Created(es, ino, q.fname, q.ext), FreeSlot(es, |es|);
      Restored(v, vol0, vol4, es, Put(r, k, Cleared(r[k])), ino)
    ensures BitmapFrame(v, vol0, vol4)
  {
    FrameTransitive(v, vol0, vol3, vol4);
    forall m: nat | 1 <= m <= Files(v, vol0) ensures EntryRestored(v, vol0, vol4, ino, m) {
      IndexRestored(v, vol0, vol3, vol4, ino, e3, Set16(e3, 0, 0), m);
    }
    forall fname: seq<byte>, ext: seq<byte>, vers: int
      ensures var r, k := Created(es, ino, q.fname, q.ext), FreeSlot(es, |es|);
        var es' := Put(r, k, Cleared(r[k]));
        Chosen(es', |es'|, fname, ext, vers) == Chosen(es, |es|, fname, ext, vers)
    {
      CreatedAndRemoved(es, ino, q.fname, q.ext, fname, ext, vers);
    }
  }

  /** delete_file of the file just created and closed. */
  method DeleteNew(v: Volume, dir: Fcb, q: Request, vers: int, ghost files: map<nat, File>, ghost di: nat, ghost d: seq<byte>,
                   ghost es: seq<DirEntry>, ghost ino: nat, ghost e: Inode, ghost vol0: Image)
    returns (ghost files': map<nat, File>, ghost d': seq<byte>)
    requires v.Valid() && DirOpen(v, dir.header, files, di, d) && |v.cache.pins| + 2 <= NBUFFERS && q.Ok()
    requires AllEntries(d) == Created(es, ino, q.fname, q.ext) && vers == Highest(es, |es|, q.fname, q.ext) + 1 < 0x8000
    requires IndexAreaOk(v, vol0) && 1 <= ino <= Files(v, vol0) && IndexNow(v, vol0, v.cache.logical, ino, ino, e)
    requires ino in files && ino != di && Agrees(files[ino], e) && LinkCount(e) == 1 && Indexed(v, v.cache.logical, files)
    modifies v.cache, v.cache.buffer, dir, dir.header
    ensures v.Valid() && v.cache.Kept(old(v.cache.pins)) && v.cache.pins == old(v.cache.pins) && DirOpen(v, dir.header, files', di, d')
    ensures files' == (files - {ino})[di := FileOf(dir.header)] && Clus(v, FileOf(dir.header)) == Clus(v, files[di])
    ensures IndexAreaOk(v, old(v.cache.logical)) && IndexFreed(v, old(v.cache.logical), v.cache.logical, ino, Set16(e, 0, 0))
    ensures var r, k := Created(es, ino, q.fname, q.ext), FreeSlot(es, |es|);
      AllEntries(d') == Put(r, k, Cleared(r[k]))
  {
    OnlyHit(es, ino, q.fname, q.ext);
    IndexEntryNow(v, vol0, v.cache.logical, ino, ino, e, ino);
    var ok;
    ghost var num;
    ok, num, files', d' := DeleteFile(v, dir, q.fname, q.ext, vers, files, di, d);
  }

  // ---------------------------------------------------------------
  // The import command
  // ---------------------------------------------------------------

  /** n bytes fit into the file that a request makes. */
  ghost predicate DataFits(v: Volume, vol: Image, x: Extent, es: seq<DirEntry>, q: Request, n: nat)
  {
    n == 0 || if q.contiguous then n <= 512 * q.csize else HasFree(v, vol, ImportCost(v.clfactor, x, es, q, n))
  }

  /** Clusters that the import of n bytes takes. */
  function ImportCost(cf: nat, x: Extent, es: seq<DirEntry>, q: Request, n: nat): nat
  {
    CreateCost(cf, x, EntryPlace(es), q) + if q.contiguous then 0 else NewCost(n, cf)
  }

  /** With clusters of more than one block it is not noticed when they run out. */
  ghost predicate AllNoticed(v: Volume, vol: Image, x: Extent, es: seq<DirEntry>, q: Request, n: nat)
    requires IndexAreaOk(v, vol) && q.Ok()
  {
    && Noticed(v, CreateOutcome(v, vol, x, es, q))
    && (v.clfactor == 0 || q.contiguous || !CreateOutcome(v, vol, x, es, q).Made? || DataFits(v, vol, x, es, q, n))
  }

  /** The new file: its entry, its inode, which says what the file is, and its clusters. */
  ghost predicate Imported(v: Volume, vol0: Image, vol: Image, q: Request, files: map<nat, File>, files': map<nat, File>, di: nat, dir: File,
                           es: seq<DirEntry>, es': seq<DirEntry>, ino: nat, e: Inode)
    requires IndexAreaOk(v, vol0) && q.Ok()
  {
    forall key {:trigger MadeKey(key)} :: Folded(key) ==>
    && FreshInode(v, vol0, ino) && IndexNow(v, vol0, vol, ino, ino, e) && LinkCount(e) == 1
    && ino !in files && ino != di && ino in files' && files' == files[ino := files'[ino]][di := dir] && Agrees(files'[ino], e)
    && es' == Created(es, ino, q.fname, q.ext)
    && NewFileInode(InodeIn(v, vol0, ino), e, q, v.clfactor, Highest(es, |es|, q.fname, q.ext) + 1)
  }

  /** What closing a file leaves of its inode. */
  ghost predicate SameIdentity(e: Inode, e': Inode)
  {
    forall j: nat :: j < 8 || 16 <= j < 23 || 30 <= j < 32 || 50 <= j < 64 ==> e'[j] == e[j]
  }

  lemma StillNew(e0: Inode, e: Inode, e': Inode, q: Request, clfactor: nat, vers: int)
    requires SameIdentity(e, e') && NewFileInode(e0, e, q, clfactor, vers)
    ensures NewFileInode(e0, e', q, clfactor, vers)
  {
    assert e'[16..23] == e[16..23];
    assert Get16(e', 4) == Get16(e, 4) && Get16(e', 30) == Get16(e, 30) && Get16(e', 62) == Get16(e, 62);
  }

  /** The bytes of a closed file. */
  ghost predicate FileHolds(v: Volume, vol: Image, f: File, e: Inode, content: seq<byte>)
  {
    && Agrees(f, e) && UsedBlocks(e) == f.nused && LastBytes(e) <= 512 && FileState(v, vol, f.contiguous, f.nalloc, f.nused, f.bmap, f.slots, f.maps)
    && FirstBytes(v, vol, f.slots, f.nused, ByteSize(f.nused, LastBytes(e)), content)
  }

  /** How things stood when the file had been created, but nothing written. */
  datatype Taken = Taken(vol: Image, files: map<nat, File>)
  {
    ghost predicate Before(v: Volume, files': map<nat, File>, ino: nat)
    {
      VolumeOk(v, vol, files) && ino in files && ino in files' && files' == files[ino := files'[ino]]
    }
  }

  /** The clusters taken by then. */
  ghost predicate CreatedTook(v: Volume, vol0: Image, x: Extent, es: seq<DirEntry>, q: Request, files: map<nat, File>, di: nat, dir: File, ino: nat, t: Taken)
    requires ino in t.files && di in files
  {
    forall key {:trigger MadeKey(key)} :: Folded(key) ==>
    && |Used(v, t.vol)| == |Used(v, vol0)| + CreateCost(v.clfactor, x, EntryPlace(es), q)
    && t.files[ino].maps == [] && |t.files[ino].slots| == Clusters(q.Blocks(), v.clfactor)
    && ino !in files && ino != di && t.files == files[ino := t.files[ino]][di := dir]
    && (EntryCost(x, EntryPlace(es), v.clfactor) == 0 ==> Clus(v, dir) == Clus(v, files[di]))
  }

  lemma MadeImported(v: Volume, vol0: Image, vol: Image, q: Request, files: map<nat, File>, files1: map<nat, File>, di: nat, dir: File,
                     x: Extent, es: seq<DirEntry>, es1: seq<DirEntry>, ino: nat, e: Inode, blkno: nat)
    requires IndexAreaOk(v, vol0) && q.Ok() && di in files
    requires FileMade(v, vol0, vol, q, files, files1, di, dir, x, es, es1, ino, e, blkno)
    ensures Imported(v, vol0, vol, q, files, files1, di, dir, es, es1, ino, e)
  {
    assert InodeSays(e, q.contiguous, q.Blocks(), 0, 0, blkno, 0) && (!q.contiguous ==> blkno == 0) && es1 == Created(es, ino, q.fname, q.ext) by { assert MadeKey(0); }
    assert NewFileInode(InodeIn(v, vol0, ino), e, q, v.clfactor, Highest(es, |es|, q.fname, q.ext) + 1) by { assert MadeKey(0); }
    assert FreshInode(v, vol0, ino) && IndexNow(v, vol0, vol, ino, ino, e) && ino !in files && ino != di by { assert MadeKey(0); }
    assert files1 == files[ino := NewFile(v, q.contiguous, q.csize, blkno)][di := dir] by { assert MadeKey(0); }
    NewFileAgrees(v, e, q, blkno);
  }

  lemma NewFileAgrees(v: Volume, e: Inode, q: Request, blkno: nat)
    requires InodeSays(e, q.contiguous, q.Blocks(), 0, 0, blkno, 0) && (!q.contiguous ==> blkno == 0)
    ensures Agrees(NewFile(v, q.contiguous, q.csize, blkno), e) && LinkCount(e) == 1
  {
  }

  lemma {:induction false} MadeFacts(v: Volume, vol0: Image, vol: Image, q: Request, files: map<nat, File>, files1: map<nat, File>, di: nat, dir: File,
                  x: Extent, es: seq<DirEntry>, es1: seq<DirEntry>, ino: nat, e: Inode, blkno: nat)
    requires IndexAreaOk(v, vol0) && q.Ok() && di in files
    requires FileMade(v, vol0, vol, q, files, files1, di, dir, x, es, es1, ino, e, blkno)
    ensures ino !in files && ino != di && FreshInode(v, vol0, ino) && IndexNow(v, vol0, vol, ino, ino, e) && es1 == Created(es, ino, q.fname, q.ext)
    ensures LinkCount(e) == 1 && IsContiguous(e) == q.contiguous && UsedBlocks(e) == LastBytes(e) == 0
    ensures files1 == files[ino := NewFile(v, q.contiguous, q.csize, blkno)][di := dir] && Agrees(files1[ino], e)
    ensures |Used(v, vol)| == |Used(v, vol0)| + CreateCost(v.clfactor, x, EntryPlace(es), q)
    ensures EntryCost(x, EntryPlace(es), v.clfactor) == 0 ==> Clus(v, dir) == Clus(v, files[di])
    ensures Imported(v, vol0, vol, q, files, files1, di, dir, es, es1, ino, e)
    ensures CreatedTook(v, vol0, x, es, q, files, di, dir, ino, Taken(vol, files1))
  {
    MadeImported(v, vol0, vol, q, files, files1, di, dir, x, es, es1, ino, e, blkno);
    assert MadeKey(0);
    NoClusters(v.clfactor);
  }

  /** What the file just made can take. */
  lemma NewFits(v: Volume, vol0: Image, h: FcbHeader, x: Extent, es: seq<DirEntry>, q: Request, blkno: nat, n: nat)
    requires FileOf(h) == NewFile(v, q.contiguous, q.csize, blkno) && q.Ok()
    requires |Used(v, v.cache.logical)| == |Used(v, vol0)| + CreateCost(v.clfactor, x, EntryPlace(es), q)
    ensures FitsNew(v, h, n) <==> DataFits(v, vol0, x, es, q, n)
  {
    NoClusters(v.clfactor);
  }

  /** file_write and close_file of the file just made. */
  method WriteAndClose(v: Volume, h: FcbHeader, q: Request, host: seq<byte>, chunk: nat, date: seq<byte>, ghost dir: FcbHeader, ghost files: map<nat, File>,
                       ghost files1: map<nat, File>, ghost di: nat, ghost d: seq<byte>, ghost d1: seq<byte>, ghost vol0: Image, ghost e: Inode)
    returns (ok: bool, ghost files': map<nat, File>, ghost e': Inode)
    requires v.Valid() && DirOpen(v, dir, files1, di, d1) && |v.cache.pins| + 2 <= NBUFFERS && chunk > 0 && |date| == 7
    requires h != dir && FileOk(v, h) && h.nused == h.lbcount == 0 && Pointed(h) && h.inode in files1 && files1[h.inode] == FileOf(h)
    requires (h.contiguous || (h.slots == [] && h.maps == [])) && (h.contiguous || v.clfactor == 0 || FitsNew(v, h, |host|))
    requires IndexAreaOk(v, vol0) && q.Ok() && IsContiguous(e) == h.contiguous
    requires Imported(v, vol0, v.cache.logical, q, files, files1, di, FileOf(dir), AllEntries(d), AllEntries(d1), h.inode, e)
    modifies v.cache, v.cache.buffer, h
    ensures v.Valid() && v.cache.Kept(old(v.cache.pins)) && DirOpen(v, dir, files', di, d1)
    ensures v.cache.pins == old(v.cache.pins) + if ok || h.contiguous then multiset{} else multiset{LeakedBlock(v)}
    ensures Reaches(v, State(old(v.cache.logical), files1), State(v.cache.logical, files'), {h.inode}) && files' == files1[h.inode := FileOf(h)]
    ensures Imported(v, vol0, v.cache.logical, q, files, files', di, FileOf(dir), AllEntries(d), AllEntries(d1), h.inode, e')
    ensures (ok <==> old(FitsNew(v, h, |host|))) && (ok ==> FileHolds(v, v.cache.logical, FileOf(h), e', host))
    ensures ok ==> |Used(v, v.cache.logical)| == |Used(v, old(v.cache.logical))| + if h.contiguous then 0 else NewCost(|host|, v.clfactor)
  {
    ghost var vol1 := v.cache.logical;
    ImportedIndex(v, vol0, vol1, q, files, files1, di, FileOf(dir), AllEntries(d), AllEntries(d1), h.inode, e);
    ok, files' := WriteNew(v, h, host, chunk, dir, files1, di, d1);
    ghost var vol2 := v.cache.logical;
    assert v.cache.Kept(old(v.cache.pins));
    e' := CloseWritten(v, h, date, ok, host, dir, files', di, d1, vol0, vol1, e);
    ReachesOn(v, State(vol1, files1), State(vol2, files'), State(v.cache.logical, files'), {h.inode}, {h.inode}, {h.inode});
    ImportedAgain(v, vol0, vol1, v.cache.logical, q, files, files1, files', di, FileOf(dir), AllEntries(d), AllEntries(d1), h.inode, e, e');
  }

  /** close_file of the file just written. */
  method CloseWritten(v: Volume, h: FcbHeader, date: seq<byte>, ghost ok: bool, ghost host: seq<byte>, ghost dir: FcbHeader, ghost files: map<nat, File>, ghost di: nat, ghost d: seq<byte>,
                      ghost vol0: Image, ghost vol1: Image, ghost e: Inode)
    returns (ghost e': Inode)
    requires v.Valid() && DirOpen(v, dir, files, di, d) && |v.cache.pins| < NBUFFERS && |date| == 7
    requires h.inode in files && files[h.inode] == FileOf(h) && Savable(h) && (ok ==> FileOk(v, h) && Content(v, h) == host)
    requires IndexAreaOk(v, vol0) && 1 <= h.inode <= Files(v, vol0) && IndexNow(v, vol0, vol1, h.inode, h.inode, e)
    requires IndexAreaOk(v, vol1) && IndexKept(v, vol1, v.cache.logical)
    requires LinkCount(e) == 1 && IsContiguous(e) == h.contiguous
    modifies v.cache, v.cache.buffer
    ensures v.Valid() && v.cache.Kept(old(v.cache.pins)) && v.cache.pins == old(v.cache.pins) && DirOpen(v, dir, files, di, d)
    ensures IndexNow(v, vol0, v.cache.logical, h.inode, h.inode, e') && Agrees(files[h.inode], e') && LinkCount(e') == 1 && SameIdentity(e, e')
    ensures Reaches(v, State(old(v.cache.logical), files), State(v.cache.logical, files), {h.inode})
    ensures Used(v, v.cache.logical) == Used(v, old(v.cache.logical)) && (ok ==> FileHolds(v, v.cache.logical, FileOf(h), e', host))
  {
    ghost var vol := v.cache.logical;
    IndexNowKept(v, vol0, vol1, vol, h.inode, h.inode, e);
    e' := CloseNew(v, h, date, dir, files, di, d, vol0, e);
    WrittenKeepsUsed(v, vol, v.cache.logical);
    if ok { ClosedHolds(v, vol, h, e', v.cache.logical, host); }
  }

  lemma ImportedIndex(v: Volume, vol0: Image, vol: Image, q: Request, files: map<nat, File>, files': map<nat, File>, di: nat, dir: File,
                      es: seq<DirEntry>, es': seq<DirEntry>, ino: nat, e: Inode)
    requires IndexAreaOk(v, vol0) && q.Ok() && Imported(v, vol0, vol, q, files, files', di, dir, es, es', ino, e)
    ensures FreshInode(v, vol0, ino) && IndexNow(v, vol0, vol, ino, ino, e) && LinkCount(e) == 1 && ino !in files && ino != di && ino in files'
    ensures files' == files[ino := files'[ino]][di := dir] && Agrees(files'[ino], e) && es' == Created(es, ino, q.fname, q.ext)
    ensures NewFileInode(InodeIn(v, vol0, ino), e, q, v.clfactor, Highest(es, |es|, q.fname, q.ext) + 1)
  {
    assert MadeKey(0);
  }

  lemma ImportedIndexed(v: Volume, vol0: Image, vol: Image, q: Request, files: map<nat, File>, files': map<nat, File>, di: nat, dir: File,
                      es: seq<DirEntry>, es': seq<DirEntry>, ino: nat, e: Inode)
    requires IndexAreaOk(v, vol0) && q.Ok() && di in files && Indexed(v, vol0, files) && Imported(v, vol0, vol, q, files, files', di, dir, es, es', ino, e)
    ensures IndexAreaOk(v, vol) && Indexed(v, vol, files') && ino in files'
  {
    ImportedIndex(v, vol0, vol, q, files, files', di, dir, es, es', ino, e);
    IndexedAfter(v, vol0, vol, files, files', ino, ino, e);
  }

  lemma ImportedAgain(v: Volume, vol0: Image, vol1: Image, vol: Image, q: Request, files: map<nat, File>, files1: map<nat, File>, files': map<nat, File>, di: nat, dir: File,
                      es: seq<DirEntry>, es': seq<DirEntry>, ino: nat, e: Inode, e': Inode)
    requires IndexAreaOk(v, vol0) && q.Ok() && Imported(v, vol0, vol1, q, files, files1, di, dir, es, es', ino, e)
    requires ino in files' && files' == files1[ino := files'[ino]] && IndexNow(v, vol0, vol, ino, ino, e') && Agrees(files'[ino], e') && LinkCount(e') == 1 && SameIdentity(e, e')
    ensures Imported(v, vol0, vol, q, files, files', di, dir, es, es', ino, e')
  {
    ImportedIndex(v, vol0, vol1, q, files, files1, di, dir, es, es', ino, e);
    StillNew(InodeIn(v, vol0, ino), e, e', q, v.clfactor, Highest(es, |es|, q.fname, q.ext) + 1);
    assert files[ino := files1[ino]][di := dir][ino := files'[ino]] == files[ino := files'[ino]][di := dir];
  }

  /** Closing a file does not touch its bytes. */
  lemma ClosedHolds(v: Volume, vol: Image, h: FcbHeader, e: Inode, vol': Image, content: seq<byte>)
    requires IndexAreaOk(v, vol) && IndexWritten(v, vol, vol') && h.lbcount <= 512
    requires FileState(v, vol, h.contiguous, h.nalloc, h.nused, h.bmap, h.slots, h.maps) && FirstBytes(v, vol, h.slots, h.nused, SizeOf(h), content)
    requires Agrees(FileOf(h), e) && UsedBlocks(e) == h.nused && LastBytes(e) == h.lbcount
    ensures FileHolds(v, vol', FileOf(h), e, content)
  {
    StateFacts(v, vol, h.contiguous, h.nalloc, h.nused, h.bmap, h.slots, h.maps);
    WrittenKeepsState(v, vol, vol', h.contiguous, h.nalloc, h.nused, h.bmap, h.slots, h.maps);
    WrittenKeepsBytes(v, vol, vol', h.slots, h.maps, h.nused);
    assert FirstBytes(v, vol', h.slots, h.nused, SizeOf(h), content) by { assert ContentKey(0); }
  }

  /** The second half of cmd_import, when the new file is open. */
  method FinishImport(v: Volume, ghost dir: FcbHeader, h: FcbHeader, q: Request, host: seq<byte>, chunk: nat, date: seq<byte>, ghost files: map<nat, File>, ghost di: nat,
                      ghost d: seq<byte>, ghost d1: seq<byte>, ghost vol0: Image, ghost x: Extent, ghost e: Inode, ghost blkno: nat, ghost t: Taken)
    returns (ok: bool, ghost files': map<nat, File>, ghost e': Inode)
    requires v.Valid() && t.vol == v.cache.logical && DirOpen(v, dir, t.files, di, d1) && |v.cache.pins| + 4 <= NBUFFERS && chunk > 0 && |date| == 7
    requires IndexAreaOk(v, vol0) && q.Ok() && di in files && Indexed(v, vol0, files) && h != dir && h.inode in t.files
    requires FileMade(v, vol0, t.vol, q, files, t.files, di, FileOf(dir), x, AllEntries(d), AllEntries(d1), h.inode, e, blkno)
    requires FileOf(h) == t.files[h.inode] && FileOk(v, h) && Loaded(h, e) && Reaches(v, State(vol0, files), State(t.vol, t.files), {h.inode, di})
    requires q.contiguous || v.clfactor == 0 || DataFits(v, vol0, x, AllEntries(d), q, |host|)
    modifies v.cache, v.cache.buffer, h
    ensures v.Valid() && v.cache.Kept(old(v.cache.pins)) && DirOpen(v, dir, files', di, d1) && Indexed(v, v.cache.logical, files')
    ensures Reaches(v, State(vol0, files), State(v.cache.logical, files'), {h.inode, di}) && t.Before(v, files', h.inode)
    ensures Imported(v, vol0, v.cache.logical, q, files, files', di, FileOf(dir), AllEntries(d), AllEntries(d1), h.inode, e')
    ensures (ok <==> DataFits(v, vol0, x, AllEntries(d), q, |host|)) && (ok ==> FileHolds(v, v.cache.logical, files'[h.inode], e', host))
    ensures ok ==> |Used(v, v.cache.logical)| == |Used(v, vol0)| + ImportCost(v.clfactor, x, AllEntries(d), q, |host|)
    ensures ok || q.contiguous ==> v.cache.pins == old(v.cache.pins)
    ensures CreatedTook(v, vol0, x, AllEntries(d), q, files, di, FileOf(dir), h.inode, t)
  {
    MadeFacts(v, vol0, t.vol, q, files, t.files, di, FileOf(dir), x, AllEntries(d), AllEntries(d1), h.inode, e, blkno);
    NewFits(v, vol0, h, x, AllEntries(d), q, blkno, |host|);
    LoadedPointed(h, e);
    ok, files', e' := WriteAndClose(v, h, q, host, chunk, date, dir, files, t.files, di, d, d1, vol0, e);
    ReachesOn(v, State(vol0, files), State(t.vol, t.files), State(v.cache.logical, files'), {h.inode, di}, {h.inode}, {h.inode, di});
    ImportedIndexed(v, vol0, v.cache.logical, q, files, files', di, FileOf(dir), AllEntries(d), AllEntries(d1), h.inode, e');
  }

  /** cmd_import: create_file, file_write of all bytes, close_file.  It succeeds if and only if the
      request can be met, the file is found again under its name, and the data fits.  A file whose name
      is not plain, or whose version has overflowed, is made, but what create_file opens instead is left
      alone here. */
  method ImportFile(v: Volume, dir: Fcb, q: Request, host: seq<byte>, chunk: nat, date: seq<byte>, ghost files: map<nat, File>, ghost di: nat, ghost d: seq<byte>)
    returns (ok: bool, r: Made, vers: int, ghost ino: nat, ghost files': map<nat, File>, ghost d': seq<byte>, ghost e: Inode, ghost t: Taken)
    requires v.Valid() && DirOpen(v, dir.header, files, di, d) && Indexed(v, v.cache.logical, files) && |v.cache.pins| + 4 <= NBUFFERS
    requires q.Ok() && EntriesInIndex(AllEntries(d), Files(v, v.cache.logical)) && chunk > 0 && |date| == 7
    requires AllNoticed(v, v.cache.logical, HeaderExtent(v, dir.header), AllEntries(d), q, |host|)
    modifies v.cache, v.cache.buffer, dir, dir.header
    ensures v.Valid() && v.cache.Kept(old(v.cache.pins)) && DirOpen(v, dir.header, files', di, d') && Indexed(v, v.cache.logical, files')
    ensures r == old(CreateOutcome(v, v.cache.logical, HeaderExtent(v, dir.header), AllEntries(d), q))
    ensures Reaches(v, State(old(v.cache.logical), files), State(v.cache.logical, files'), Concerned(r, ino, di))
    ensures r.Made? ==> vers == Highest(AllEntries(d), |AllEntries(d)|, q.fname, q.ext) + 1
    ensures ok <==> r.Made? && q.Plain() && vers < 0x8000 && old(DataFits(v, v.cache.logical, HeaderExtent(v, dir.header), AllEntries(d), q, |host|))
    ensures r.Made? ==> Imported(v, old(v.cache.logical), v.cache.logical, q, files, files', di, FileOf(dir.header), AllEntries(d), AllEntries(d'), ino, e)
    ensures ok ==> ino in files' && FileHolds(v, v.cache.logical, files'[ino], e, host)
    ensures ok ==> |Used(v, v.cache.logical)| == |Used(v, old(v.cache.logical))| + old(ImportCost(v.clfactor, HeaderExtent(v, dir.header), AllEntries(d), q, |host|))
    ensures r.Made? && (!q.Plain() || vers == 0x8000) ==>
      |Used(v, v.cache.logical)| == |Used(v, old(v.cache.logical))| + old(CreateCost(v.clfactor, HeaderExtent(v, dir.header), EntryPlace(AllEntries(d)), q))
    ensures r.IndexFull? || r.FileExists? || r.NoSpace? ==> Used(v, v.cache.logical) == Used(v, old(v.cache.logical))
    ensures ok ==> t.Before(v, files', ino) && CreatedTook(v, old(v.cache.logical), old(HeaderExtent(v, dir.header)), AllEntries(d), q, files, di, FileOf(dir.header), ino, t)
    ensures !r.Made? ==> NotMade(v, old(v.cache.logical), v.cache.logical, r, files, files', di, FileOf(dir.header), d, d', ino)
    ensures ok || r.FileExists? || r.NoSpace? || (r.Made? && (q.contiguous || !q.Plain() || vers == 0x8000)) ==> v.cache.pins == old(v.cache.pins)
  {
    ghost var vol0, x := v.cache.logical, HeaderExtent(v, dir.header);
    ok := false;
    var h, elsewhere;
    ghost var blkno;
    h, elsewhere, r, vers, ino, files', d', e, blkno := CreateFile(v, dir, q, files, di, d);
    t := Taken(v.cache.logical, files');
    if r.Made? {
      MadeFacts(v, vol0, t.vol, q, files, files', di, FileOf(dir.header), x, AllEntries(d), AllEntries(d'), ino, e, blkno);
      if q.Plain() && vers < 0x8000 {
        assert v.cache.Kept(old(v.cache.pins));
        ok, files', e := FinishImport(v, dir.header, h, q, host, chunk, date, files, di, d, d', vol0, x, e, blkno, t);
      }
    } else if !r.NotEntered? {
      NotMadeFacts(v, vol0, v.cache.logical, r, files, files', di, FileOf(dir.header), d, d', ino);
      SameOwners(v, State(vol0, files), State(v.cache.logical, files));
    }
  }

  // ---------------------------------------------------------------
  // Made and deleted
  // ---------------------------------------------------------------

  /** One owner less. */
  lemma OwnerLeft(v: Volume, t: Taken, ino: nat, vol: Image, files: map<nat, File>)
    requires VolumeOk(v, t.vol, t.files) && ino in t.files && VolumeOk(v, vol, files) && AllClus(v, files) == AllClus(v, t.files - {ino})
    ensures Used(v, t.vol) == Used(v, vol) + Clus(v, t.files[ino]) && Used(v, vol) !! Clus(v, t.files[ino])
  {
    var f := t.files[ino];
    AllClusWith(v, t.files, ino, f);
    assert t.files[ino := f] == t.files;
    assert RunKey(0);
    SoundFacts(v, t.vol, f);
    forall c | c in AllClus(v, t.files - {ino}) ensures c !in Clus(v, f) {
      var j :| j in t.files - {ino} && c in Clus(v, (t.files - {ino})[j]);
      assert j in t.files && j != ino;
    }
    forall c: nat | c < v.NClusters() ensures c in Used(v, t.vol) <==> c in Used(v, vol) + Clus(v, f) {
    }
  }

  /** What is left of the clusters that were taken: those by which the directory has grown. */
  lemma ClustersLeft(v: Volume, vol0: Image, x: Extent, es: seq<DirEntry>, q: Request, files: map<nat, File>, di: nat, dir: File, ino: nat, t: Taken,
                     files2: map<nat, File>, f: File, vol: Image)
    requires VolumeOk(v, vol0, files) && di in files && t.Before(v, files2, ino) && CreatedTook(v, vol0, x, es, q, files, di, dir, ino, t)
    requires di in files2 && Clus(v, f) == Clus(v, files2[di]) && VolumeOk(v, vol, (files2 - {ino})[di := f])
    ensures |Used(v, vol)| == |Used(v, vol0)| + EntryCost(x, EntryPlace(es), v.clfactor)
    ensures EntryCost(x, EntryPlace(es), v.clfactor) == 0 ==> Used(v, vol) == Used(v, vol0)
  {
    var files' := (files2 - {ino})[di := f];
    assert MadeKey(0);
    assert files2 - {ino} == t.files - {ino} == files[di := dir];
    SameOwner(v, files2 - {ino}, di, f);
    OwnerLeft(v, t, ino, vol, files');
    DisjointSize(Used(v, vol), Clus(v, t.files[ino]));
    assert Sound(v, t.vol, t.files[ino]) by { assert RunKey(0); }
    SoundFacts(v, t.vol, t.files[ino]);
    OwnedSize(v, t.files[ino].slots, []);
    if EntryCost(x, EntryPlace(es), v.clfactor) == 0 {
      SameOwner(v, files, di, dir);
      SameOwners(v, State(vol0, files), State(vol, files'));
    }
  }

  /** A file is created, written, closed and deleted.  This goes through if and only if the import does,
      for one of the reasons known beforehand.  Afterwards the index bitmap and all other inodes are the
      same, every search of the directory has the same result, and what was linked is marked as before;
      as many clusters more are marked as the directory has grown by, so that the cluster bitmap is the
      same, byte for byte, if and only if the new entry needed no further cluster. */
  method CreateWriteDelete(v: Volume, dir: Fcb, q: Request, host: seq<byte>, chunk: nat, date: seq<byte>,
                           ghost files: map<nat, File>, ghost di: nat, ghost d: seq<byte>)
    returns (done: bool, ghost ino: nat, ghost d': seq<byte>)
    requires v.Valid() && DirOpen(v, dir.header, files, di, d) && Indexed(v, v.cache.logical, files) && |v.cache.pins| + 4 <= NBUFFERS
    requires q.Ok() && EntriesInIndex(AllEntries(d), Files(v, v.cache.logical)) && chunk > 0 && |date| == 7
    requires AllNoticed(v, v.cache.logical, HeaderExtent(v, dir.header), AllEntries(d), q, |host|) && MarkedIfLinked(v, v.cache.logical)
    modifies v.cache, v.cache.buffer, dir, dir.header
    ensures v.Valid() && IndexAreaOk(v, old(v.cache.logical))
    ensures done <==>
      && old(CreateOutcome(v, v.cache.logical, HeaderExtent(v, dir.header), AllEntries(d), q)).Made?
      && q.Plain() && Highest(AllEntries(d), |AllEntries(d)|, q.fname, q.ext) < 0x7FFF
      && old(DataFits(v, v.cache.logical, HeaderExtent(v, dir.header), AllEntries(d), q, |host|))
    ensures done ==> v.cache.pins == old(v.cache.pins) && ContentIs(v, dir.header, d')
    ensures done ==> Restored(v, old(v.cache.logical), v.cache.logical, AllEntries(d), AllEntries(d'), ino)
    ensures done ==>
      |Used(v, v.cache.logical)| == |Used(v, old(v.cache.logical))| + old(EntryCost(HeaderExtent(v, dir.header), EntryPlace(AllEntries(d)), v.clfactor))
    ensures done ==>
      (SameBitmap(v, old(v.cache.logical), v.cache.logical) <==> old(EntryCost(HeaderExtent(v, dir.header), EntryPlace(AllEntries(d)), v.clfactor)) == 0)
  {
    ghost var vol0, es, x := v.cache.logical, AllEntries(d), HeaderExtent(v, dir.header);
    d' := d;
    var r, vers;
    ghost var files2, files4, d1, e, t;
    done, r, vers, ino, files2, d1, e, t := ImportFile(v, dir, q, host, chunk, date, files, di, d);
    if done {
      ghost var vol3, dir1 := v.cache.logical, FileOf(dir.header);
      ImportedIndex(v, vol0, vol3, q, files, files2, di, dir1, es, AllEntries(d1), ino, e);
      files4, d' := DeleteNew(v, dir, q, vers, files2, di, d1, es, ino, e, vol0);
      LifeRestores(v, vol0, vol3, v.cache.logical, es, q, ino, e);
      ClustersLeft(v, vol0, x, es, q, files, di, dir1, ino, t, files2, FileOf(dir.header), v.cache.logical);
      BitmapAfter(v, vol0, v.cache.logical);
    }
  }

  lemma {:induction false} BitmapAfter(v: Volume, vol0: Image, vol: Image)
    requires BitmapFrame(v, vol0, vol) && |vol0| == v.NBlocks()
    ensures SameBitmap(v, vol0, vol) <==> Used(v, vol) == Used(v, vol0)
  {
    if Used(v, vol) == Used(v, vol0) {
      BitmapRestored(v, vol0, vol);
    } else if SameBitmap(v, vol0, vol) {
      SameBitmapSameUsed(v, vol0, vol);
    }
  }
}
