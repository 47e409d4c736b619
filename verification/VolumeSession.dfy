/** The import, delete and export commands of main.c on a mounted volume, in one directory: after each of
    them inodes, files, marks and entries agree again, and every file has the bytes that were imported. */
module VolumeSession {
  import opened Bytes
  import opened BufferCache
  import opened Volumes
  import opened Allocation
  import opened FileExtension
  import opened StreamIo
  import opened StreamLaws
  import opened FileTransfer
  import opened VolumeRuns
  import opened VolumeSteps
  import opened Inodes
  import opened IndexArea
  import opened VolumeHistory
  import opened Directory
  import opened DirectoryFiles
  import opened FileCreation
  import opened Checker
  import opened FileDeletion
  import opened FileLife
  import MasterDirectory

  /** The inodes up to this one belong to the volume itself. */
  const OWN_INODES: nat := MasterDirectory.SYSTEM_FILES

  /** What a user knows: the live files, the directory and its bytes, the bytes of closed files, and the
      directory entries of the volume's own files. */
  datatype Session = Session(files: map<nat, File>, di: nat, d: seq<byte>, contents: map<nat, seq<byte>>, own: set<DirEntry>)
  {
    ghost function Entries(): seq<DirEntry> { AllEntries(d) }
  }

  // ---------------------------------------------------------------
  // Between two commands
  // ---------------------------------------------------------------

  /** An inode in use is marked, and says what its file is. */
  ghost predicate EntryOk(v: Volume, vol: Image, s: Session, m: nat)
    requires IndexAreaOk(v, vol) && m >= 1
  {
    var e := InodeIn(v, vol, m);
    && (m <= OWN_INODES ==> LinkCount(e) > 0)
    && (LinkCount(e) > 0 ==> Bit(vol, IxBitmap(v, vol), m - 1) && (m > OWN_INODES ==> m in s.files && m != s.di))
    && (m in s.files ==> LinkCount(e) > 0 && (m != s.di ==> Agrees(s.files[m], e)))
    && (m in s.contents ==> m in s.files && m != s.di && FileHolds(v, vol, s.files[m], e, s.contents[m]))
  }

  /** An entry in use leads to an inode in use. */
  ghost predicate LinkOk(v: Volume, vol: Image, own: set<DirEntry>, e: DirEntry)
    requires IndexAreaOk(v, vol)
  {
    && Ino(e) <= Files(v, vol)
    && (Ino(e) != 0 ==> LinkCount(InodeIn(v, vol, Ino(e))) > 0 && (Ino(e) <= OWN_INODES ==> e in own))
  }

  ghost predicate SessionKey(k: int)
  {
    true
  }

  /** All of them do, and no two to the same inode. */
  ghost predicate LinksOk(v: Volume, vol: Image, own: set<DirEntry>, es: seq<DirEntry>)
    requires IndexAreaOk(v, vol)
  {
    && (forall k: nat :: k < |es| ==> LinkOk(v, vol, own, es[k]))
    && forall j: nat, k: nat :: j < k < |es| && Ino(es[j]) == Ino(es[k]) ==> Ino(es[j]) == 0
  }

  ghost predicate EntriesOk(v: Volume, vol: Image, s: Session)
    requires IndexAreaOk(v, vol)
  {
    forall m: nat :: 1 <= m <= Files(v, vol) ==> EntryOk(v, vol, s, m)
  }

  /** All inodes but one are the same. */
  ghost predicate SameInodes(v: Volume, vol0: Image, vol: Image, ino: nat)
    requires IndexAreaOk(v, vol0) && IndexAreaOk(v, vol)
  {
    && Files(v, vol) == Files(v, vol0)
    && forall m: nat {:trigger InodeIn(v, vol, m)} :: 1 <= m <= Files(v, vol0) && m != ino ==> InodeIn(v, vol, m) == InodeIn(v, vol0, m)
  }

  ghost predicate Consistent(v: Volume, vol: Image, s: Session)
    requires IndexAreaOk(v, vol)
  {
    && s.di <= OWN_INODES <= Files(v, vol)
    && forall key {:trigger SessionKey(key)} :: Folded(key) ==>
    && EntriesOk(v, vol, s) && InRange(s, Files(v, vol))
    && LinksOk(v, vol, s.own, s.Entries())
  }

  ghost predicate SessionOk(v: Volume, dir: Fcb, s: Session)
    reads dir, dir.header, v.cache
  {
    DirOpen(v, dir.header, s.files, s.di, s.d) && Consistent(v, v.cache.logical, s)
  }

  lemma ConsistentLinks(v: Volume, vol: Image, s: Session)
    requires IndexAreaOk(v, vol) && Consistent(v, vol, s)
    ensures LinksOk(v, vol, s.own, s.Entries()) && InRange(s, Files(v, vol))
  {
    assert SessionKey(0);
  }

  /** Files and contents are those of inodes of the index. */
  ghost predicate InRange(s: Session, n: nat)
  {
    (forall m :: m in s.files ==> 1 <= m <= n) && (forall m :: m in s.contents ==> m in s.files)
  }

  lemma ConsistentIntro(v: Volume, vol: Image, s: Session)
    requires IndexAreaOk(v, vol) && s.di <= OWN_INODES <= Files(v, vol)
    requires EntriesOk(v, vol, s) && InRange(s, Files(v, vol)) && LinksOk(v, vol, s.own, s.Entries())
    ensures Consistent(v, vol, s)
  {
  }

  lemma LinksInIndex(v: Volume, vol: Image, own: set<DirEntry>, es: seq<DirEntry>)
    requires IndexAreaOk(v, vol) && LinksOk(v, vol, own, es)
    ensures EntriesInIndex(es, Files(v, vol))
  {
  }

  /** What the commands rely on. */
  lemma ConsistentFacts(v: Volume, vol: Image, s: Session)
    requires IndexAreaOk(v, vol) && Consistent(v, vol, s)
    ensures Indexed(v, vol, s.files) && MarkedIfLinked(v, vol) && EntriesInIndex(s.Entries(), Files(v, vol))
  {
    ConsistentLinks(v, vol, s);
    LinksInIndex(v, vol, s.own, s.Entries());
    forall m: nat {:trigger InodeIn(v, vol, m)} | 1 <= m <= Files(v, vol) && LinkCount(InodeIn(v, vol, m)) > 0 ensures Bit(vol, IxBitmap(v, vol), m - 1) {
      ConsistentEntry(v, vol, s, m);
    }
    forall m: nat | m in s.files ensures 1 <= m <= Files(v, vol) && LinkCount(InodeAt(v, vol, m)) > 0 {
      ConsistentEntry(v, vol, s, m);
      InodeInIndex(v, vol, m);
    }
  }

  lemma ConsistentEntry(v: Volume, vol: Image, s: Session, m: nat)
    requires IndexAreaOk(v, vol) && Consistent(v, vol, s) && 1 <= m <= Files(v, vol)
    ensures EntryOk(v, vol, s, m)
  {
    assert SessionKey(0);
  }

  // ---------------------------------------------------------------
  // What a command does not concern stays
  // ---------------------------------------------------------------

  /** The record of a file and its bytes, with another number of blocks counted for a contiguous one. */
  lemma SoundState(v: Volume, vol: Image, f: File)
    requires Sound(v, vol, f) && (f.contiguous ==> f.nused <= f.nalloc)
    ensures FileState(v, vol, f.contiguous, f.nalloc, f.nused, f.bmap, f.slots, f.maps)
  {
    assert FileKey(0);
  }

  lemma HeldBytes(v: Volume, s: State, t: State, i: nat, e: Inode, content: seq<byte>)
    requires i in s.files && FileHolds(v, s.vol, s.files[i], e, content) && VolumeOk(v, t.vol, t.files)
    requires HasBlocks(v, s, i, s.files[i].nused) ==> SameFile(v, s, t, i, s.files[i].nused)
    ensures i in t.files && t.files[i] == s.files[i] && FileHolds(v, t.vol, t.files[i], e, content)
  {
    var f := s.files[i];
    StateFacts(v, s.vol, f.contiguous, f.nalloc, f.nused, f.bmap, f.slots, f.maps);
    assert f.contiguous ==> f.nused <= f.nalloc by { assert FileKey(0); }
    assert Sound(v, t.vol, f) by { assert RunKey(0); }
    SoundState(v, t.vol, f);
    assert FirstBytes(v, t.vol, f.slots, f.nused, ByteSize(f.nused, LastBytes(e)), content) by { assert ContentKey(0); }
  }

  /** An inode that is the same, and whose file is not concerned. */
  lemma EntryKept(v: Volume, vol0: Image, s: Session, vol: Image, s': Session, who: set<nat>, m: nat)
    requires VolumeOk(v, vol0, s.files) && IndexAreaOk(v, vol0) && Reaches(v, State(vol0, s.files), State(vol, s'.files), who)
    requires IndexAreaOk(v, vol) && 1 <= m <= Files(v, vol0) && EntryOk(v, vol0, s, m) && s'.di == s.di
    requires InodeIn(v, vol, m) == InodeIn(v, vol0, m) && (Bit(vol0, IxBitmap(v, vol0), m - 1) ==> Bit(vol, IxBitmap(v, vol), m - 1))
    requires (m in s.files && m != s.di ==> m !in who) && (m in s'.files <==> m in s.files)
    requires m in s'.contents ==> m in s.contents && s'.contents[m] == s.contents[m]
    ensures EntryOk(v, vol, s', m)
  {
    var a, b := State(vol0, s.files), State(vol, s'.files);
    ReachesIsSafe(v, a, b, who);
    if m in s.files && m != s.di {
      ReachesKeepsFile(v, a, b, who, m, 0);
      if HasBlocks(v, a, m, s.files[m].nused) { ReachesKeepsFile(v, a, b, who, m, s.files[m].nused); }
      if m in s'.contents { HeldBytes(v, a, b, m, InodeIn(v, vol0, m), s.contents[m]); }
    }
  }

  /** Entries that are the same, or fewer of them. */
  lemma LinksKept(v: Volume, vol0: Image, own: set<DirEntry>, es: seq<DirEntry>, vol: Image, es': seq<DirEntry>)
    requires IndexAreaOk(v, vol0) && IndexAreaOk(v, vol) && LinksOk(v, vol0, own, es) && SameInodes(v, vol0, vol, 0) && es' <= es
    ensures LinksOk(v, vol, own, es')
  {
    forall k: nat | k < |es'| ensures LinkOk(v, vol, own, es'[k]) {
      assert es'[k] == es[k] && LinkOk(v, vol0, own, es[k]);
    }
    forall j: nat, k: nat | j < k < |es'| && Ino(es'[j]) == Ino(es'[k]) ensures Ino(es'[j]) == 0 {
      assert es'[j] == es[j] && es'[k] == es[k];
    }
  }

  /** One entry more, or less: entry n is a new one. */
  lemma LinksWith(v: Volume, vol0: Image, own: set<DirEntry>, es: seq<DirEntry>, vol: Image, n: nat, e: DirEntry, ino: nat)
    requires IndexAreaOk(v, vol0) && IndexAreaOk(v, vol) && LinksOk(v, vol0, own, es) && SameInodes(v, vol0, vol, ino) && n <= |es|
    requires forall k: nat :: k < |es| && k != n ==> Ino(es[k]) != ino
    requires LinkOk(v, vol, own, e) && (Ino(e) == 0 || Ino(e) == ino)
    ensures LinksOk(v, vol, own, Put(es, n, e))
  {
    var es' := Put(es, n, e);
    forall k: nat | k < |es'| ensures LinkOk(v, vol, own, es'[k]) {
      if k != n { assert es'[k] == es[k] && LinkOk(v, vol0, own, es[k]); }
    }
    forall j: nat, k: nat | j < k < |es'| && Ino(es'[j]) == Ino(es'[k]) ensures Ino(es'[j]) == 0 {
      if j != n { assert es'[j] == es[j]; }
      if k != n { assert es'[k] == es[k]; }
    }
  }

  // ---------------------------------------------------------------
  // Import
  // ---------------------------------------------------------------

  lemma NowInode(v: Volume, vol0: Image, vol: Image, marked: nat, ino: nat, e: Inode, m: nat)
    requires IndexAreaOk(v, vol0) && IndexNow(v, vol0, vol, marked, ino, e) && 1 <= m <= Files(v, vol0)
    ensures IndexAreaOk(v, vol) && IxBitmap(v, vol) == IxBitmap(v, vol0) && Files(v, vol) == Files(v, vol0)
    ensures InodeIn(v, vol, m) == if m == ino then e else InodeIn(v, vol0, m)
    ensures Bit(vol, IxBitmap(v, vol0), m - 1) == (m <= marked || Bit(vol0, IxBitmap(v, vol0), m - 1))
  {
    IndexEntryNow(v, vol0, vol, marked, ino, e, m);
    InodeInIndex(v, vol0, m);
  }

  lemma NowSame(v: Volume, vol0: Image, vol: Image, marked: nat, ino: nat, e: Inode)
    requires IndexAreaOk(v, vol0) && IndexNow(v, vol0, vol, marked, ino, e)
    ensures IndexAreaOk(v, vol) && SameInodes(v, vol0, vol, ino)
    ensures 1 <= ino <= Files(v, vol0) ==> InodeIn(v, vol, ino) == e
  {
    forall m: nat {:trigger InodeIn(v, vol, m)} | 1 <= m <= Files(v, vol0) ensures InodeIn(v, vol, m) == if m == ino then e else InodeIn(v, vol0, m) {
      NowInode(v, vol0, vol, marked, ino, e, m);
    }
  }

  /** An inode that new_inode finds belongs to no file and no entry. */
  lemma FreshIsUnknown(v: Volume, vol: Image, s: Session, ino: nat)
    requires IndexAreaOk(v, vol) && Consistent(v, vol, s) && FreshInode(v, vol, ino)
    ensures ino !in s.files && ino !in s.contents && ino > OWN_INODES && InodeIn(v, vol, ino) == InodeAt(v, vol, ino)
    ensures forall k: nat :: k < |s.Entries()| ==> Ino(s.Entries()[k]) != ino
  {
    ConsistentEntry(v, vol, s, ino);
    ConsistentLinks(v, vol, s);
    var es := s.Entries();
    forall k: nat | k < |es| ensures Ino(es[k]) != ino {
      assert LinkOk(v, vol, s.own, es[k]);
    }
    assert ino !in s.files by { assert InodeIn(v, vol, ino) == InodeAt(v, vol, ino); }
  }

  lemma EntriesAfterLoss(d: seq<byte>)
    requires |d| % ENTRY == 0 && AllNamed(AllEntries(d))
    ensures AllEntries(WithoutLastBlock(d)) <= AllEntries(d)
  {
    EntriesPrefix(d, WithoutLastBlock(d));
  }

  /** After an import that was refused. */
  lemma RefusedKeeps(v: Volume, vol0: Image, s: Session, vol: Image, s': Session, r: Made, dir: File, ino: nat)
    requires VolumeOk(v, vol0, s.files) && IndexAreaOk(v, vol0) && Consistent(v, vol0, s) && s.di in s.files
    requires NotMade(v, vol0, vol, r, s.files, s'.files, s.di, dir, s.d, s'.d, ino) && |s.d| % ENTRY == 0 && AllNamed(s.Entries())
    requires Reaches(v, State(vol0, s.files), State(vol, s'.files), Concerned(r, ino, s.di))
    requires s' == s.(files := s'.files, d := s'.d)
    ensures IndexAreaOk(v, vol) && Consistent(v, vol, s')
  {
    NotMadeFacts(v, vol0, vol, r, s.files, s'.files, s.di, dir, s.d, s'.d, ino);
    if !r.IndexFull? { FreshIsUnknown(v, vol0, s, ino); }
    NowSame(v, vol0, vol, ino, 0, ZeroEntry());
    forall m: nat | 1 <= m <= Files(v, vol0) ensures EntryOk(v, vol, s', m) {
      RefusedEntry(v, vol0, s, vol, s', r, dir, ino, m);
    }
    EntriesAfterLoss(s.d);
    ConsistentLinks(v, vol0, s);
    LinksKept(v, vol0, s.own, s.Entries(), vol, s'.Entries());
    ConsistentIntro(v, vol, s');
  }

  lemma RefusedEntry(v: Volume, vol0: Image, s: Session, vol: Image, s': Session, r: Made, dir: File, ino: nat, m: nat)
    requires VolumeOk(v, vol0, s.files) && IndexAreaOk(v, vol0) && Consistent(v, vol0, s) && s.di in s.files && 1 <= m <= Files(v, vol0)
    requires IndexNow(v, vol0, vol, ino, 0, ZeroEntry()) && (r.IndexFull? || ino !in s.files)
    requires Reaches(v, State(vol0, s.files), State(vol, s'.files), Concerned(r, ino, s.di))
    requires s' == s.(files := s'.files, d := s'.d) && (s'.files == s.files || s'.files == s.files[s.di := dir])
    ensures IndexAreaOk(v, vol) && EntryOk(v, vol, s', m)
  {
    NowInode(v, vol0, vol, ino, 0, ZeroEntry(), m);
    ConsistentEntry(v, vol0, s, m);
    RefusedFiles(s, s', r, dir, ino, m);
    EntryKept(v, vol0, s, vol, s', Concerned(r, ino, s.di), m);
  }

  /** No file but the directory is concerned. */
  lemma RefusedFiles(s: Session, s': Session, r: Made, dir: File, ino: nat, m: nat)
    requires s.di in s.files && (r.IndexFull? || ino !in s.files) && (s'.files == s.files || s'.files == s.files[s.di := dir])
    ensures (m in s.files && m != s.di ==> m !in Concerned(r, ino, s.di)) && (m in s'.files <==> m in s.files)
  {
  }

  /** After an import that has made a file. */
  lemma MadeKeeps(v: Volume, vol0: Image, s: Session, vol: Image, s': Session, q: Request, dir: File, ino: nat, e: Inode, ok: bool, host: seq<byte>)
    requires VolumeOk(v, vol0, s.files) && IndexAreaOk(v, vol0) && Consistent(v, vol0, s) && s.di in s.files && q.Ok()
    requires Imported(v, vol0, vol, q, s.files, s'.files, s.di, dir, s.Entries(), s'.Entries(), ino, e)
    requires Reaches(v, State(vol0, s.files), State(vol, s'.files), {ino, s.di})
    requires s' == s.(files := s'.files, d := s'.d, contents := s'.contents) && s'.contents == if ok then s.contents[ino := host] else s.contents
    requires ok ==> ino in s'.files && FileHolds(v, vol, s'.files[ino], e, host)
    ensures IndexAreaOk(v, vol) && Consistent(v, vol, s')
  {
    ImportedIndex(v, vol0, vol, q, s.files, s'.files, s.di, dir, s.Entries(), s'.Entries(), ino, e);
    FreshIsUnknown(v, vol0, s, ino);
    ConsistentLinks(v, vol0, s);
    NowSame(v, vol0, vol, ino, ino, e);
    forall m: nat | 1 <= m <= Files(v, vol0) ensures EntryOk(v, vol, s', m) {
      MadeEntryOk(v, vol0, s, vol, s', dir, ino, e, ok, host, m);
    }
    MadeLinks(v, vol0, s.own, s.Entries(), vol, q, ino, e);
    ConsistentIntro(v, vol, s');
  }

  lemma MadeLinks(v: Volume, vol0: Image, own: set<DirEntry>, es: seq<DirEntry>, vol: Image, q: Request, ino: nat, e: Inode)
    requires IndexAreaOk(v, vol0) && IndexAreaOk(v, vol) && LinksOk(v, vol0, own, es) && SameInodes(v, vol0, vol, ino) && q.Ok()
    requires OWN_INODES < ino <= Files(v, vol0) && InodeIn(v, vol, ino) == e && LinkCount(e) > 0
    requires forall k: nat :: k < |es| ==> Ino(es[k]) != ino
    ensures LinksOk(v, vol, own, Created(es, ino, q.fname, q.ext))
  {
    MadeEntry(ino, q.fname, q.ext, Highest(es, |es|, q.fname, q.ext) + 1);
    LinksWith(v, vol0, own, es, vol, FreeSlot(es, |es|), NewEntry(es, ino, q.fname, q.ext), ino);
  }

  lemma MadeEntryOk(v: Volume, vol0: Image, s: Session, vol: Image, s': Session, dir: File, ino: nat, e: Inode, ok: bool, host: seq<byte>, m: nat)
    requires VolumeOk(v, vol0, s.files) && IndexAreaOk(v, vol0) && Consistent(v, vol0, s) && s.di in s.files && 1 <= m <= Files(v, vol0)
    requires IndexNow(v, vol0, vol, ino, ino, e) && LinkCount(e) == 1 && ino > OWN_INODES && ino !in s.files && ino != s.di && ino in s'.files
    requires s'.files == s.files[ino := s'.files[ino]][s.di := dir] && Agrees(s'.files[ino], e) && s'.di == s.di
    requires Reaches(v, State(vol0, s.files), State(vol, s'.files), {ino, s.di})
    requires s'.contents == if ok then s.contents[ino := host] else s.contents
    requires (ok ==> FileHolds(v, vol, s'.files[ino], e, host)) && ino !in s.contents
    ensures IndexAreaOk(v, vol) && EntryOk(v, vol, s', m)
  {
    NowInode(v, vol0, vol, ino, ino, e, m);
    if m != ino {
      ConsistentEntry(v, vol0, s, m);
      EntryKept(v, vol0, s, vol, s', {ino, s.di}, m);
    }
  }

  /** What a command has come to: whether it succeeded; for an import, what became of the file, and whether
      the disk or the index was found full; for an export, the bytes. */
  datatype Report = Report(ok: bool, made: Made, full: bool, host: seq<byte>)

  ghost predicate ImportEffect(q: Request, host: seq<byte>, p: Report, ino: nat, s: Session, s': Session)
    requires |q.fname| <= 9 && |q.ext| <= 3
  {
    && s'.di == s.di && s'.own == s.own
    && if p.made.Made? then
         && ino !in s.files && ino !in s.contents && ino in s'.files && s'.Entries() == Created(s.Entries(), ino, q.fname, q.ext)
         && s'.contents == (if p.ok then s.contents[ino := host] else s.contents) && s'.files.Keys == s.files.Keys + {ino}
       else
         s'.contents == s.contents && s'.files.Keys == s.files.Keys && !p.ok && if p.made.NotEntered? then s'.d == WithoutLastBlock(s.d) else s'.d == s.d
  }

  const IMPORT_CHUNK: nat := 256

  /** The import command.  Afterwards all is in order again, whatever the outcome: after success the new
      file holds the bytes of the host file, and in every case the other files hold theirs.  The outcome
      is known beforehand. */
  method ImportCommand(v: Volume, dir: Fcb, q: Request, host: seq<byte>, date: seq<byte>, ghost s: Session)
    returns (p: Report, ghost ino: nat, ghost s': Session)
    requires v.Valid() && SessionOk(v, dir, s) && |v.cache.pins| + 4 <= NBUFFERS && q.Ok() && |date| == 7
    requires AllNoticed(v, v.cache.logical, HeaderExtent(v, dir.header), s.Entries(), q, |host|)
    modifies v.cache, v.cache.buffer, dir, dir.header
    ensures v.Valid() && v.cache.Kept(old(v.cache.pins)) && SessionOk(v, dir, s')
    ensures ImportEffect(q, host, p, ino, s, s')
    ensures p.made == old(CreateOutcome(v, v.cache.logical, HeaderExtent(v, dir.header), s.Entries(), q))
    ensures p.ok <==>
      && p.made.Made? && q.Plain() && Highest(s.Entries(), |s.Entries()|, q.fname, q.ext) < 0x7FFF
      && old(DataFits(v, v.cache.logical, HeaderExtent(v, dir.header), s.Entries(), q, |host|))
    ensures !p.full ==> v.cache.pins == old(v.cache.pins)
    ensures p.full ==> !p.ok && (p.made.IndexFull? || p.made.NotEntered? || (p.made.Made? && !q.contiguous))
    ensures p.ok || (!p.full && !p.made.NotEntered? && !q.contiguous) ==>
      |Used(v, v.cache.logical)| <= |Used(v, old(v.cache.logical))| + old(ImportCost(v.clfactor, HeaderExtent(v, dir.header), s.Entries(), q, |host|))
  {
    ghost var vol0 := v.cache.logical;
    ConsistentFacts(v, vol0, s);
    var ok, r, vers;
    ghost var files', d', e, t;
    ok, r, vers, ino, files', d', e, t := ImportFile(v, dir, q, host, IMPORT_CHUNK, date, s.files, s.di, s.d);
    p := Report(ok, r, r.IndexFull? || r.NotEntered? || (r.Made? && !ok && !q.contiguous && q.Plain() && vers < 0x8000), []);
    s' := s.(files := files', d := d', contents := if ok then s.contents[ino := host] else s.contents);
    if r.Made? {
      MadeEffect(v, vol0, v.cache.logical, q, FileOf(dir.header), s, s', ino, e, p, host);
      MadeKeeps(v, vol0, s, v.cache.logical, s', q, FileOf(dir.header), ino, e, ok, host);
    } else {
      RefusedEffect(v, vol0, v.cache.logical, q, FileOf(dir.header), s, s', ino, p, host);
      RefusedKeeps(v, vol0, s, v.cache.logical, s', r, FileOf(dir.header), ino);
    }
  }

  lemma MadeEffect(v: Volume, vol0: Image, vol: Image, q: Request, dir: File, s: Session, s': Session, ino: nat, e: Inode, p: Report, host: seq<byte>)
    requires IndexAreaOk(v, vol0) && Consistent(v, vol0, s) && s.di in s.files && q.Ok() && p.made.Made?
    requires Imported(v, vol0, vol, q, s.files, s'.files, s.di, dir, s.Entries(), s'.Entries(), ino, e)
    requires s' == s.(files := s'.files, d := s'.d, contents := if p.ok then s.contents[ino := host] else s.contents)
    ensures ImportEffect(q, host, p, ino, s, s')
  {
    ImportedIndex(v, vol0, vol, q, s.files, s'.files, s.di, dir, s.Entries(), s'.Entries(), ino, e);
    FreshIsUnknown(v, vol0, s, ino);
  }

  lemma RefusedEffect(v: Volume, vol0: Image, vol: Image, q: Request, dir: File, s: Session, s': Session, ino: nat, p: Report, host: seq<byte>)
    requires IndexAreaOk(v, vol0) && s.di in s.files && q.Ok() && !p.made.Made? && !p.ok
    requires NotMade(v, vol0, vol, p.made, s.files, s'.files, s.di, dir, s.d, s'.d, ino) && s' == s.(files := s'.files, d := s'.d)
    ensures ImportEffect(q, host, p, ino, s, s')
  {
    NotMadeFacts(v, vol0, vol, p.made, s.files, s'.files, s.di, dir, s.d, s'.d, ino);
  }

  // ---------------------------------------------------------------
  // Delete
  // ---------------------------------------------------------------

  lemma FreedInode(v: Volume, vol0: Image, vol: Image, ino: nat, e: Inode, m: nat)
    requires IndexAreaOk(v, vol0) && IndexFreed(v, vol0, vol, ino, e) && 1 <= m <= Files(v, vol0)
    ensures IndexAreaOk(v, vol) && IxBitmap(v, vol) == IxBitmap(v, vol0) && Files(v, vol) == Files(v, vol0)
    ensures InodeIn(v, vol, m) == if m == ino then e else InodeIn(v, vol0, m)
    ensures Bit(vol, IxBitmap(v, vol0), m - 1) == (m != ino && Bit(vol0, IxBitmap(v, vol0), m - 1))
  {
    InodeInIndex(v, vol0, m);
    assert IndexKey(0);
  }

  lemma FreedSame(v: Volume, vol0: Image, vol: Image, ino: nat, e: Inode)
    requires IndexAreaOk(v, vol0) && IndexFreed(v, vol0, vol, ino, e)
    ensures IndexAreaOk(v, vol) && SameInodes(v, vol0, vol, ino)
  {
    forall m: nat {:trigger InodeIn(v, vol, m)} | 1 <= m <= Files(v, vol0) && m != ino ensures InodeIn(v, vol, m) == InodeIn(v, vol0, m) {
      FreedInode(v, vol0, vol, ino, e, m);
    }
  }

  /** After a deletion. */
  lemma DeletedKeeps(v: Volume, vol0: Image, s: Session, vol: Image, s': Session, k: nat, dir: File, ino: nat, e: Inode)
    requires VolumeOk(v, vol0, s.files) && IndexAreaOk(v, vol0) && Consistent(v, vol0, s) && s.di in s.files && k < |s.Entries()|
    requires ino == Ino(s.Entries()[k]) && OWN_INODES < ino <= Files(v, vol0) && ino in s.files && ino != s.di && LinkCount(e) == 0
    requires IndexFreed(v, vol0, vol, ino, e) && s'.files == (s.files - {ino})[s.di := dir] && s'.Entries() == Put(s.Entries(), k, Cleared(s.Entries()[k]))
    requires Reaches(v, State(vol0, s.files), State(vol, s'.files), {ino, s.di})
    requires s' == s.(files := s'.files, d := s'.d, contents := s.contents - {ino})
    ensures IndexAreaOk(v, vol) && Consistent(v, vol, s')
  {
    ConsistentLinks(v, vol0, s);
    FreedSame(v, vol0, vol, ino, e);
    forall m: nat | 1 <= m <= Files(v, vol0) ensures EntryOk(v, vol, s', m) {
      FreedInode(v, vol0, vol, ino, e, m);
      if m != ino {
        ConsistentEntry(v, vol0, s, m);
        EntryKept(v, vol0, s, vol, s', {ino, s.di}, m);
      }
    }
    LinksWith(v, vol0, s.own, s.Entries(), vol, k, Cleared(s.Entries()[k]), ino);
    ConsistentIntro(v, vol, s');
  }

  /** None of the volume's own files has the name. */
  ghost predicate Foreign(s: Session, fname: seq<byte>, ext: seq<byte>, vers: int)
  {
    forall e :: e in s.own ==> !Hit(e, fname, ext, vers)
  }

  /** What the deletion relies on. */
  lemma NamedIsClosed(v: Volume, vol: Image, s: Session, fname: seq<byte>, ext: seq<byte>, vers: int, k: nat)
    requires IndexAreaOk(v, vol) && Consistent(v, vol, s) && Foreign(s, fname, ext, vers) && k < |s.Entries()| && Hit(s.Entries()[k], fname, ext, vers)
    ensures var ino := Ino(s.Entries()[k]);
      Closed(v, vol, s.files, s.di, ino) && OWN_INODES < ino <= Files(v, vol) && LinkCount(InodeIn(v, vol, ino)) > 0
  {
    ConsistentLinks(v, vol, s);
    var es := s.Entries();
    assert LinkOk(v, vol, s.own, es[k]);
    ConsistentEntry(v, vol, s, Ino(es[k]));
  }

  ghost predicate DeleteEffect(fname: seq<byte>, ext: seq<byte>, vers: int, ok: bool, s: Session, s': Session)
    requires |fname| <= 9 && |ext| <= 3
  {
    && s'.di == s.di && s'.own == s.own
    && var es := s.Entries();
    var k := FirstHit(es, |es|, fname, ext, vers);
    && (ok <==> k < |es|)
    && if ok then s'.Entries() == Put(es, k, Cleared(es[k])) && s'.contents == s.contents - {Ino(es[k])} && s'.files.Keys == s.files.Keys - {Ino(es[k])}
       else s' == s
  }

  lemma FewerOwners(v: Volume, vol0: Image, files: map<nat, File>, vol: Image, ino: nat, di: nat, dir: File)
    requires VolumeOk(v, vol0, files) && di in files && ino != di && VolumeOk(v, vol, (files - {ino})[di := dir]) && Clus(v, dir) == Clus(v, files[di])
    ensures |Used(v, vol)| <= |Used(v, vol0)|
  {
    var less := files - {ino};
    SameOwner(v, less, di, dir);
    AllClusWith(v, files, ino, Before(files, ino));
    if ino in files {
      assert files[ino := files[ino]] == files;
    } else {
      assert less == files;
    }
    assert RunKey(0);
    assert Used(v, vol) <= Used(v, vol0);
    assert Used(v, vol0) == Used(v, vol) + (Used(v, vol0) - Used(v, vol));
  }

  /** The delete command: the first entry of the name and its file are gone. */
  method DeleteCommand(v: Volume, dir: Fcb, fname: seq<byte>, ext: seq<byte>, vers: int, ghost s: Session) returns (ok: bool, ghost s': Session)
    requires v.Valid() && SessionOk(v, dir, s) && |v.cache.pins| + 2 <= NBUFFERS && |fname| <= 9 && |ext| <= 3 && Foreign(s, fname, ext, vers)
    modifies v.cache, v.cache.buffer, dir, dir.header
    ensures v.Valid() && v.cache.Kept(old(v.cache.pins)) && v.cache.pins == old(v.cache.pins) && SessionOk(v, dir, s')
    ensures DeleteEffect(fname, ext, vers, ok, s, s')
    ensures |Used(v, v.cache.logical)| <= |Used(v, old(v.cache.logical))|
  {
    ghost var vol0, es := v.cache.logical, s.Entries();
    ghost var k := FirstHit(es, |es|, fname, ext, vers);
    ConsistentFacts(v, vol0, s);
    forall j: nat | j < |es| && Hit(es[j], fname, ext, vers)
      ensures Closed(v, vol0, s.files, s.di, Ino(es[j])) && OWN_INODES < Ino(es[j]) <= Files(v, vol0) && LinkCount(InodeIn(v, vol0, Ino(es[j]))) > 0
    {
      NamedIsClosed(v, vol0, s, fname, ext, vers, j);
    }
    ghost var ino, files', d';
    ok, ino, files', d' := DeleteFile(v, dir, fname, ext, vers, s.files, s.di, s.d);
    s' := s;
    if ok {
      s' := s.(files := files', d := d', contents := s.contents - {ino});
      DeletedKeeps(v, vol0, s, v.cache.logical, s', k, FileOf(dir.header), ino, Set16(InodeIn(v, vol0, ino), 0, 0));
      FewerOwners(v, vol0, s.files, v.cache.logical, ino, s.di, FileOf(dir.header));
    }
  }

  // ---------------------------------------------------------------
  // Export
  // ---------------------------------------------------------------

  /** Closing a file that was only read: its inode has a new date, and all else is the same. */
  lemma ClosedKeeps(v: Volume, vol0: Image, s: Session, vol: Image, h: FcbHeader, e: Inode)
    requires VolumeOk(v, vol0, s.files) && IndexAreaOk(v, vol0) && Consistent(v, vol0, s) && s.di in s.files
    requires var ino := h.inode;
      ino in s.contents && ino in s.files && s.files[ino] == FileOf(h) && h.lbcount <= 512 && 1 <= ino <= Files(v, vol0) && InodeBlock(v, ino) < |vol0| && vol == WithInode(v, vol0, ino, e)
      && FileHolds(v, vol0, s.files[ino], InodeIn(v, vol0, ino), s.contents[ino]) && LastBytes(InodeIn(v, vol0, ino)) == h.lbcount
      && Agrees(s.files[ino], e) && UsedBlocks(e) == h.nused && LastBytes(e) == h.lbcount && LinkCount(e) > 0
    ensures IndexAreaOk(v, vol) && Consistent(v, vol, s)
  {
    var ino := h.inode;
    ConsistentLinks(v, vol0, s);
    InodeWritten(v, vol0, ino, e);
    WrittenKeepsPlaces(v, vol0, vol);
    ReachesOne(v, State(vol0, s.files), Enter(ino, e), State(vol, s.files), {ino});
    ClosedHolds(v, vol0, h, e, vol, s.contents[ino]);
    SameAfterClose(v, vol0, vol, ino, e);
    ClosedEntries(v, vol0, s, vol, ino, e);
    LinksAfterClose(v, vol0, s.own, s.Entries(), vol, ino);
    ConsistentIntro(v, vol, s);
  }

  /** The entries of the session, when the inode of the closed file is in order. */
  lemma ClosedEntries(v: Volume, vol0: Image, s: Session, vol: Image, ino: nat, e: Inode)
    requires VolumeOk(v, vol0, s.files) && IndexAreaOk(v, vol0) && IndexAreaOk(v, vol) && Consistent(v, vol0, s) && Files(v, vol) == Files(v, vol0)
    requires 1 <= ino <= Files(v, vol0) && InodeBlock(v, ino) < |vol0| && vol == WithInode(v, vol0, ino, e) && IxBitmap(v, vol) == IxBitmap(v, vol0)
    requires Reaches(v, State(vol0, s.files), State(vol, s.files), {ino})
    requires ino in s.contents && ino in s.files && LinkCount(e) > 0 && Agrees(s.files[ino], e) && FileHolds(v, vol, s.files[ino], e, s.contents[ino])
    ensures EntriesOk(v, vol, s)
  {
    forall m: nat | 1 <= m <= Files(v, vol0) ensures EntryOk(v, vol, s, m) {
      WrittenInode(v, vol0, ino, e, m);
      ConsistentEntry(v, vol0, s, m);
      if m != ino { EntryKept(v, vol0, s, vol, s, {ino}, m); }
    }
  }

  lemma SameAfterClose(v: Volume, vol0: Image, vol: Image, ino: nat, e: Inode)
    requires IndexAreaOk(v, vol0) && 1 <= ino <= Files(v, vol0) && InodeBlock(v, ino) < |vol0| && vol == WithInode(v, vol0, ino, e)
    requires IndexAreaOk(v, vol) && Files(v, vol) == Files(v, vol0)
    ensures SameInodes(v, vol0, vol, ino) && InodeIn(v, vol, ino) == e
  {
    WrittenInode(v, vol0, ino, e, ino);
    forall m: nat {:trigger InodeIn(v, vol, m)} | 1 <= m <= Files(v, vol0) && m != ino ensures InodeIn(v, vol, m) == InodeIn(v, vol0, m) {
      WrittenInode(v, vol0, ino, e, m);
    }
  }

  lemma LinksAfterClose(v: Volume, vol0: Image, own: set<DirEntry>, es: seq<DirEntry>, vol: Image, ino: nat)
    requires IndexAreaOk(v, vol0) && IndexAreaOk(v, vol) && LinksOk(v, vol0, own, es) && SameInodes(v, vol0, vol, ino)
    requires LinkCount(InodeIn(v, vol, ino)) > 0
    ensures LinksOk(v, vol, own, es)
  {
    forall k: nat | k < |es| ensures LinkOk(v, vol, own, es[k]) {
      assert LinkOk(v, vol0, own, es[k]);
    }
  }

  const EXPORT_CHUNK: nat := 256

  /** The header that open_file loads is that of the file as it was closed. */
  lemma OpenedAgain(v: Volume, s: Session, h: FcbHeader, e: Inode)
    requires IndexAreaOk(v, v.cache.logical) && Consistent(v, v.cache.logical, s) && h.inode in s.contents && 1 <= h.inode <= Files(v, v.cache.logical)
    requires e == InodeIn(v, v.cache.logical, h.inode) && Loaded(h, e) && h.inode in s.files && h.slots == s.files[h.inode].slots && h.maps == s.files[h.inode].maps
    ensures FileOf(h) == s.files[h.inode] && FileOk(v, h) && Content(v, h) == s.contents[h.inode] && FileHolds(v, v.cache.logical, FileOf(h), e, s.contents[h.inode])
    ensures LinkCount(e) > 0
  {
    ConsistentEntry(v, v.cache.logical, s, h.inode);
    ContentIsContent(v, h, s.contents[h.inode]);
  }

  lemma LoadedSavable(h: FcbHeader, e: Inode)
    requires Loaded(h, e)
    ensures h.nalloc < 0x100_0000 && h.nused < 0x100_0000 && |h.bmap| == 6 && forall k: nat :: k < 6 ==> h.bmap[k] < 0x100_0000
  {
  }

  /** h is the header of a file whose bytes are known, just loaded. */
  ghost predicate Known(v: Volume, s: Session, h: FcbHeader)
    requires IndexAreaOk(v, v.cache.logical)
    reads h, v.cache
  {
    && h.inode in s.contents && h.inode in s.files && 1 <= h.inode <= Files(v, v.cache.logical) && Loaded(h, InodeIn(v, v.cache.logical, h.inode))
    && h.slots == s.files[h.inode].slots && h.maps == s.files[h.inode].maps
  }

  /** What closing such a file does. */
  lemma ClosedAgain(v: Volume, s: Session, h: FcbHeader, date: seq<byte>)
    requires VolumeOk(v, v.cache.logical, s.files) && IndexAreaOk(v, v.cache.logical) && Consistent(v, v.cache.logical, s) && s.di in s.files
    requires Known(v, s, h) && |date| == 7
    ensures |h.bmap| == 6 && h.inode < 0x1_0000 && InodeBlock(v, h.inode) < |v.cache.logical| && LinkCount(InodeAt(v, v.cache.logical, h.inode)) > 0
    ensures var vol := WithInode(v, v.cache.logical, h.inode, Saved(InodeAt(v, v.cache.logical, h.inode), h.nalloc, h.nused, h.lbcount, h.bmap, date));
      && IndexWritten(v, v.cache.logical, vol) && IndexAreaOk(v, vol) && Consistent(v, vol, s) && Used(v, vol) == Used(v, v.cache.logical)
  {
    var vol0 := v.cache.logical;
    var e := InodeIn(v, vol0, h.inode);
    OpenedAgain(v, s, h, e);
    LoadedSavable(h, e);
    InodeInIndex(v, vol0, h.inode);
    var e' := Saved(e, h.nalloc, h.nused, h.lbcount, h.bmap, date);
    var vol := WithInode(v, vol0, h.inode, e');
    ClosedAgrees(e, FileOf(h), h.lbcount, date);
    InodeWritten(v, vol0, h.inode, e');
    ClosedKeeps(v, vol0, s, vol, h, e');
    WrittenKeepsUsed(v, vol0, vol);
  }

  /** close_file of a file that was only read. */
  method CloseRead(v: Volume, ghost dir: Fcb, h: FcbHeader, date: seq<byte>, ghost s: Session)
    requires v.Valid() && SessionOk(v, dir, s) && |v.cache.pins| < NBUFFERS && |date| == 7
    requires Known(v, s, h)
    modifies v.cache, v.cache.buffer
    ensures v.Valid() && v.cache.Kept(old(v.cache.pins)) && v.cache.pins == old(v.cache.pins) && SessionOk(v, dir, s)
    ensures Used(v, v.cache.logical) == Used(v, old(v.cache.logical))
  {
    ghost var vol0 := v.cache.logical;
    ClosedAgain(v, s, h, date);
    var ok := CloseFile(v, h, date);
    DirKeptByIndex(v, vol0, v.cache.logical, s.files, s.di, |s.d|, s.d);
  }

  /** The search finds an inode in use. */
  lemma ChosenIsLinked(v: Volume, vol: Image, s: Session, fname: seq<byte>, ext: seq<byte>, vers: int)
    requires IndexAreaOk(v, vol) && Consistent(v, vol, s) && |fname| <= 9 && |ext| <= 3
    ensures var r := Chosen(s.Entries(), |s.Entries()|, fname, ext, vers);
      r >= 0 ==> 1 <= Ino(s.Entries()[r]) <= Files(v, vol) && LinkCount(InodeIn(v, vol, Ino(s.Entries()[r]))) > 0
  {
    var es := s.Entries();
    var r := Chosen(es, |es|, fname, ext, vers);
    ConsistentLinks(v, vol, s);
    FoundIsHit(es, |es|, fname, ext, vers);
    if r >= 0 { assert LinkOk(v, vol, s.own, es[r]); }
  }

  /** open_file of a file whose bytes are known. */
  method OpenNamed(v: Volume, dir: Fcb, fname: seq<byte>, ext: seq<byte>, vers: int, ghost s: Session) returns (h: FcbHeader?)
    requires v.Valid() && SessionOk(v, dir, s) && |v.cache.pins| + 2 <= NBUFFERS && |fname| <= 9 && |ext| <= 3
    requires var r := Chosen(s.Entries(), |s.Entries()|, fname, ext, vers); r >= 0 ==> Ino(s.Entries()[r]) in s.contents
    modifies v.cache, v.cache.buffer, dir
    ensures v.Valid() && v.cache.Kept(old(v.cache.pins)) && v.cache.pins == old(v.cache.pins) && v.cache.logical == old(v.cache.logical)
    ensures var r := Chosen(s.Entries(), |s.Entries()|, fname, ext, vers);
      (h != null <==> r >= 0) && (h != null ==> fresh(h) && h.inode == Ino(s.Entries()[r]) && Known(v, s, h))
  {
    ghost var es, vol := s.Entries(), v.cache.logical;
    ConsistentFacts(v, vol, s);
    ConsistentLinks(v, vol, s);
    ChosenIsLinked(v, vol, s, fname, ext, vers);
    h := OpenByName(v, dir, fname, ext, vers, s.d, s.files);
  }

  /** The loop of the export command. */
  method ReadAll(v: Volume, h: FcbHeader, ghost s: Session) returns (host: seq<byte>)
    requires v.Valid() && |v.cache.pins| < NBUFFERS && IndexAreaOk(v, v.cache.logical) && Consistent(v, v.cache.logical, s) && Known(v, s, h)
    modifies v.cache, v.cache.buffer
    ensures v.Valid() && v.cache.Kept(old(v.cache.pins)) && v.cache.pins == old(v.cache.pins) && v.cache.logical == old(v.cache.logical)
    ensures host == s.contents[h.inode]
  {
    OpenedAgain(v, s, h, InodeIn(v, v.cache.logical, h.inode));
    var fcb := new Fcb(h);
    assert v.cache.Kept(old(v.cache.pins));
    host := Export(v, fcb, EXPORT_CHUNK);
  }

  /** The export command for a file that was imported: its bytes come back. */
  method ExportCommand(v: Volume, dir: Fcb, fname: seq<byte>, ext: seq<byte>, vers: int, date: seq<byte>, ghost s: Session)
    returns (found: bool, host: seq<byte>)
    requires v.Valid() && SessionOk(v, dir, s) && |v.cache.pins| + 2 <= NBUFFERS && |fname| <= 9 && |ext| <= 3 && |date| == 7
    requires var r := Chosen(s.Entries(), |s.Entries()|, fname, ext, vers); r >= 0 ==> Ino(s.Entries()[r]) in s.contents
    modifies v.cache, v.cache.buffer, dir
    ensures v.Valid() && v.cache.Kept(old(v.cache.pins)) && v.cache.pins == old(v.cache.pins) && SessionOk(v, dir, s)
    ensures var r := Chosen(s.Entries(), |s.Entries()|, fname, ext, vers);
      (found <==> r >= 0) && (found ==> host == s.contents[Ino(s.Entries()[r])])
    ensures Used(v, v.cache.logical) == Used(v, old(v.cache.logical))
  {
    host := [];
    var h := OpenNamed(v, dir, fname, ext, vers, s);
    found := h != null;
    if found {
      assert v.cache.Kept(old(v.cache.pins));
      host := ReadAll(v, h, s);
      assert v.cache.Kept(old(v.cache.pins));
      CloseRead(v, dir, h, date, s);
    }
  }
}
