/** The loops over a directory's entries in open_file, create_file and delete_file of fileio.c, and
    the write of one entry. */
module DirectoryFiles {
  import opened Bytes
  import opened BufferCache
  import opened Volumes
  import opened Allocation
  import opened FileMap
  import opened Footprint
  import opened FileContent
  import opened FileExtension
  import opened StreamIo
  import opened StreamWrite
  import opened StreamLaws
  import opened Directory

  /** h is the header of a directory with the bytes d. */
  ghost predicate DirOk(v: Volume, h: FcbHeader, d: seq<byte>)
    reads h, v.cache
  {
    && FileOk(v, h) && !h.contiguous && ContentIs(v, h, d) && (h.nused == 0 ==> h.lbcount == 0)
    && |d| % ENTRY == 0 && AllNamed(AllEntries(d))
  }

  lemma {:induction false} SliceEntry(d: seq<byte>, k: nat)
    requires |d| % ENTRY == 0 && k < |d| / ENTRY
    ensures ENTRY * k + ENTRY <= |d| && Slice(d, ENTRY * k, ENTRY * k + ENTRY) == AllEntries(d)[k]
  {
    SliceIs(d, ENTRY * k, ENTRY * k + ENTRY);
    EntryBytes(d, |d| / ENTRY, k);
  }

  /** file_read of the next 16 bytes: an entry, or the end of the directory. */
  method ReadEntry(v: Volume, dir: Fcb, ghost d: seq<byte>, ghost k: nat) returns (e: seq<byte>)
    requires v.Valid() && DirOk(v, dir.header, d) && PosOk(dir) && Pos(dir) == ENTRY * k && k <= |d| / ENTRY && |v.cache.pins| < NBUFFERS
    modifies v.cache, v.cache.buffer, dir
    ensures v.Valid() && v.cache.Kept(old(v.cache.pins)) && v.cache.logical == old(v.cache.logical) && v.cache.pins == old(v.cache.pins)
    ensures PosOk(dir) && (|e| == ENTRY <==> k < |d| / ENTRY)
    ensures k < |d| / ENTRY ==> e == AllEntries(d)[k] && Pos(dir) == ENTRY * (k + 1)
  {
    ContentIsContent(v, dir.header, d);
    if k < |d| / ENTRY { SliceEntry(d, k); }
    e := FileRead(v, dir, ENTRY);
  }

  // ---------------------------------------------------------------
  // open_file
  // ---------------------------------------------------------------

  ghost predicate SearchKey(k: int)
  {
    true
  }

  /** The variables of open_file's search after k entries. */
  ghost predicate SearchState(es: seq<DirEntry>, k: nat, fname: seq<byte>, ext: seq<byte>, vers: int, found: bool, dirent: DirEntry, hivers: int)
  {
    && k <= |es|
    && forall key {:trigger SearchKey(key)} :: Folded(key) ==>
    var r := Chosen(es, k, fname, ext, vers);
    found == (r >= 0) && hivers == VersionAt(es, r) && (found ==> dirent == es[r])
  }

  lemma SearchStarts(es: seq<DirEntry>, fname: seq<byte>, ext: seq<byte>, vers: int, dirent: DirEntry)
    ensures SearchState(es, 0, fname, ext, vers, false, dirent, 0)
  {
    assert Chosen(es, 0, fname, ext, vers) == -1 && VersionAt(es, -1) == 0;
  }

  /** The body of the loop of open_file. */
  method SearchTurn(e: DirEntry, fname: seq<byte>, ext: seq<byte>, vers: int, found: bool, dirent: DirEntry, hivers: int,
                    ghost es: seq<DirEntry>, ghost k: nat)
    returns (found': bool, dirent': DirEntry, hivers': int)
    requires SearchState(es, k, fname, ext, vers, found, dirent, hivers) && k < |es| && e == es[k] && Named(e) && |fname| <= 9 && |ext| <= 3
    ensures SearchState(es, k + 1, fname, ext, vers, found', dirent', hivers')
  {
    assert SearchKey(0);
    found', dirent', hivers' := found, dirent, hivers;
    var ino, dvers := Get16(e, 0), Short(Get16(e, 14));
    if ino != 0 {
      var m := Match(e, fname, ext, vers);
      if m && (vers > 0 || dvers > hivers) {
        dirent', hivers', found' := e, dvers, true;
      }
    }
  }

  /** The search of open_file: the highest version, or the one asked for. */
  method FindFile(v: Volume, dir: Fcb, fname: seq<byte>, ext: seq<byte>, vers: int, ghost d: seq<byte>) returns (found: bool, dirent: DirEntry)
    requires v.Valid() && DirOk(v, dir.header, d) && |v.cache.pins| < NBUFFERS && |fname| <= 9 && |ext| <= 3
    modifies v.cache, v.cache.buffer, dir
    ensures v.Valid() && v.cache.Kept(old(v.cache.pins)) && v.cache.logical == old(v.cache.logical) && v.cache.pins == old(v.cache.pins)
    ensures var es := AllEntries(d);
      var r := Chosen(es, |es|, fname, ext, vers);
      found == (r >= 0) && (found ==> dirent == es[r])
  {
    ghost var es := AllEntries(d);
    ghost var k: nat := 0;
    found, dirent := false, seq(ENTRY, _ => 0);
    var hivers := 0;
    SearchStarts(es, fname, ext, vers, dirent);
    var err := FileSeek(v, dir, 0);
    var temp := ReadEntry(v, dir, d, k);
    while |temp| == ENTRY
      invariant v.Valid() && v.cache.Kept(old(v.cache.pins)) && v.cache.logical == old(v.cache.logical) && v.cache.pins == old(v.cache.pins)
      invariant PosOk(dir) && k <= |es| && (|temp| == ENTRY <==> k < |es|)
      invariant k < |es| ==> temp == es[k] && Pos(dir) == ENTRY * (k + 1)
      invariant SearchState(es, k, fname, ext, vers, found, dirent, hivers)
      decreases |es| - k
    {
      found, dirent, hivers := SearchTurn(temp, fname, ext, vers, found, dirent, hivers, es, k);
      k := k + 1;
      assert v.cache.Kept(old(v.cache.pins));
      temp := ReadEntry(v, dir, d, k);
    }
    assert SearchKey(0);
  }

  // ---------------------------------------------------------------
  // create_file
  // ---------------------------------------------------------------

  /** The variables of create_file's search after k entries. */
  ghost predicate ScanState(es: seq<DirEntry>, k: nat, fname: seq<byte>, ext: seq<byte>, vers: int, found: bool, fpos: nat, hivers: int)
  {
    && k <= |es|
    && forall key {:trigger SearchKey(key)} :: Folded(key) ==>
    && hivers == Highest(es, k, fname, ext)
    && found == (FreeSlot(es, k) < k) && (found ==> fpos == ENTRY * FreeSlot(es, k))
    && forall j: nat :: j < k && Hit(es[j], fname, ext, 0) && vers > 0 ==> Version(es[j]) != vers
  }

  lemma ScanStarts(es: seq<DirEntry>, fname: seq<byte>, ext: seq<byte>, vers: int)
    ensures ScanState(es, 0, fname, ext, vers, false, 0, 0)
  {
    assert Highest(es, 0, fname, ext) == 0 && FreeSlot(es, 0) == 0;
  }

  /** The body of the loop of create_file. */
  method ScanTurn(e: DirEntry, fname: seq<byte>, ext: seq<byte>, vers: int, cpos: nat, found: bool, fpos: nat, hivers: int,
                  ghost es: seq<DirEntry>, ghost k: nat)
    returns (clash: bool, found': bool, fpos': nat, hivers': int)
    requires ScanState(es, k, fname, ext, vers, found, fpos, hivers) && k < |es| && e == es[k] && Named(e) && |fname| <= 9 && |ext| <= 3
    requires cpos == ENTRY * k
    ensures if clash then Exists(es, fname, ext, vers) else ScanState(es, k + 1, fname, ext, vers, found', fpos', hivers')
  {
    assert SearchKey(0);
    clash, found', fpos', hivers' := false, found, fpos, hivers;
    if e[0] == 0 && e[1] == 0 {
      if !found { fpos' := cpos; }
      found' := true;
    } else {
      var m := Match(e, fname, ext, 0);
      if m {
        assert Hit(es[k], fname, ext, 0);
        var dvers := Short(Get16(e, 14));
        if vers > 0 && vers == dvers { return true, found, fpos, hivers; }
        if dvers > hivers { hivers' := dvers; }
      }
    }
  }

  lemma ScanEnds(es: seq<DirEntry>, fname: seq<byte>, ext: seq<byte>, vers: int, found: bool, fpos: nat, hivers: int)
    requires ScanState(es, |es|, fname, ext, vers, found, fpos, hivers)
    ensures !Exists(es, fname, ext, vers) && hivers == Highest(es, |es|, fname, ext)
    ensures (if found then fpos else ENTRY * |es|) == ENTRY * FreeSlot(es, |es|)
  {
    assert SearchKey(0);
  }

  /** The search of create_file: a free place, and the highest version so far. */
  method ScanForCreate(v: Volume, dir: Fcb, fname: seq<byte>, ext: seq<byte>, vers: int, ghost d: seq<byte>)
    returns (clash: bool, fpos: nat, hivers: int)
    requires v.Valid() && DirOk(v, dir.header, d) && |v.cache.pins| < NBUFFERS && |fname| <= 9 && |ext| <= 3
    modifies v.cache, v.cache.buffer, dir
    ensures v.Valid() && v.cache.Kept(old(v.cache.pins)) && v.cache.logical == old(v.cache.logical) && v.cache.pins == old(v.cache.pins)
    ensures var es := AllEntries(d);
      && clash == Exists(es, fname, ext, vers)
      && (!clash ==> fpos == ENTRY * FreeSlot(es, |es|) && hivers == Highest(es, |es|, fname, ext))
  {
    ghost var es := AllEntries(d);
    ghost var k: nat := 0;
    var found := false;
    clash, fpos, hivers := false, 0, 0;
    ScanStarts(es, fname, ext, vers);
    var err := FileSeek(v, dir, 0);
    var cpos := Pos(dir);
    var dirent := ReadEntry(v, dir, d, k);
    while |dirent| == ENTRY
      invariant v.Valid() && v.cache.Kept(old(v.cache.pins)) && v.cache.logical == old(v.cache.logical) && v.cache.pins == old(v.cache.pins)
      invariant PosOk(dir) && k <= |es| && (|dirent| == ENTRY <==> k < |es|) && cpos == ENTRY * k
      invariant k < |es| ==> dirent == es[k] && Pos(dir) == ENTRY * (k + 1)
      invariant !clash && ScanState(es, k, fname, ext, vers, found, fpos, hivers)
      decreases |es| - k
    {
      clash, found, fpos, hivers := ScanTurn(dirent, fname, ext, vers, cpos, found, fpos, hivers, es, k);
      if clash { return; }
      k := k + 1;
      assert v.cache.Kept(old(v.cache.pins));
      cpos := Pos(dir);
      dirent := ReadEntry(v, dir, d, k);
    }
    ScanEnds(es, fname, ext, vers, found, fpos, hivers);
    if !found { fpos := cpos; }
  }

  // ---------------------------------------------------------------
  // delete_file
  // ---------------------------------------------------------------

  /** The first entry that delete_file finds, or n. */
  ghost function FirstHit(es: seq<DirEntry>, n: nat, fname: seq<byte>, ext: seq<byte>, vers: int): (k: nat)
    requires n <= |es|
    ensures k <= n && (k < n ==> Hit(es[k], fname, ext, vers)) && forall j: nat :: j < k ==> !Hit(es[j], fname, ext, vers)
  {
    if n == 0 then 0
    else
      var k := FirstHit(es, n - 1, fname, ext, vers);
      if k < n - 1 || Hit(es[n - 1], fname, ext, vers) then k else n
  }

  /** No entry before k is the one. */
  ghost predicate NotYet(es: seq<DirEntry>, k: nat, fname: seq<byte>, ext: seq<byte>, vers: int)
  {
    k <= |es| && forall key {:trigger SearchKey(key)} :: Folded(key) ==> FirstHit(es, k, fname, ext, vers) == k
  }

  lemma NotYetAtStart(es: seq<DirEntry>, fname: seq<byte>, ext: seq<byte>, vers: int)
    ensures NotYet(es, 0, fname, ext, vers)
  {
    assert FirstHit(es, 0, fname, ext, vers) == 0;
  }

  lemma NoHit(es: seq<DirEntry>, fname: seq<byte>, ext: seq<byte>, vers: int)
    requires NotYet(es, |es|, fname, ext, vers)
    ensures FirstHit(es, |es|, fname, ext, vers) == |es|
  {
    assert SearchKey(0);
  }

  /** The body of the loop of delete_file. */
  method FirstTurn(e: DirEntry, fname: seq<byte>, ext: seq<byte>, vers: int, ghost es: seq<DirEntry>, ghost k: nat) returns (hit: bool)
    requires NotYet(es, k, fname, ext, vers) && k < |es| && e == es[k] && Named(e) && |fname| <= 9 && |ext| <= 3
    ensures if hit then FirstHit(es, |es|, fname, ext, vers) == k else NotYet(es, k + 1, fname, ext, vers)
  {
    assert SearchKey(0);
    hit := false;
    if Get16(e, 0) != 0 { hit := Match(e, fname, ext, vers); }
    if hit { FirstHitStays(es, k, |es|, fname, ext, vers); }
  }

  /** The search of delete_file: without a version it stops at the first entry of the name. */
  method FindFirst(v: Volume, dir: Fcb, fname: seq<byte>, ext: seq<byte>, vers: int, ghost d: seq<byte>)
    returns (found: bool, fpos: nat, dirent: DirEntry)
    requires v.Valid() && DirOk(v, dir.header, d) && |v.cache.pins| < NBUFFERS && |fname| <= 9 && |ext| <= 3
    modifies v.cache, v.cache.buffer, dir
    ensures v.Valid() && v.cache.Kept(old(v.cache.pins)) && v.cache.logical == old(v.cache.logical) && v.cache.pins == old(v.cache.pins)
    ensures var es := AllEntries(d);
      var k := FirstHit(es, |es|, fname, ext, vers);
      found == (k < |es|) && (found ==> dirent == es[k] && fpos == ENTRY * k)
  {
    ghost var es := AllEntries(d);
    ghost var k: nat := 0;
    NotYetAtStart(es, fname, ext, vers);
    var err := FileSeek(v, dir, 0);
    fpos := Pos(dir);
    var temp := ReadEntry(v, dir, d, k);
    while |temp| == ENTRY
      invariant v.Valid() && v.cache.Kept(old(v.cache.pins)) && v.cache.logical == old(v.cache.logical) && v.cache.pins == old(v.cache.pins)
      invariant PosOk(dir) && k <= |es| && (|temp| == ENTRY <==> k < |es|) && fpos == ENTRY * k
      invariant k < |es| ==> temp == es[k] && Pos(dir) == ENTRY * (k + 1)
      invariant NotYet(es, k, fname, ext, vers)
      decreases |es| - k
    {
      found := FirstTurn(temp, fname, ext, vers, es, k);
      if found { return true, fpos, temp; }
      k := k + 1;
      assert v.cache.Kept(old(v.cache.pins));
      fpos := Pos(dir);
      temp := ReadEntry(v, dir, d, k);
    }
    NoHit(es, fname, ext, vers);
    return false, fpos, seq(ENTRY, _ => 0);
  }

  lemma {:induction false} FirstHitStays(es: seq<DirEntry>, k: nat, n: nat, fname: seq<byte>, ext: seq<byte>, vers: int)
    requires k < n <= |es| && FirstHit(es, k, fname, ext, vers) == k && Hit(es[k], fname, ext, vers)
    ensures FirstHit(es, n, fname, ext, vers) == k
  {
    if n > k + 1 { FirstHitStays(es, k, n - 1, fname, ext, vers); }
  }

  /** Without a version, delete_file takes the entry that open_file would take, exactly if the first entry of
      the name has a positive version and no later one a higher. */
  lemma DeletesNewestIff(es: seq<DirEntry>, fname: seq<byte>, ext: seq<byte>)
    requires FirstHit(es, |es|, fname, ext, 0) < |es|
    ensures var k := FirstHit(es, |es|, fname, ext, 0);
      Chosen(es, |es|, fname, ext, 0) == k <==> Version(es[k]) > 0 && forall j: nat :: k < j < |es| && Hit(es[j], fname, ext, 0) ==> Version(es[j]) <= Version(es[k])
  {
    ChosenIsHighest(es, |es|, fname, ext);
  }

  /** With the versions 1 and 2 of a file in this order, version 2 is opened and version 1 deleted. */
  lemma OldestIsDeleted()
    ensures var es := [MakeEntry(9, [65], [66], 1), MakeEntry(10, [65], [66], 2)];
      Chosen(es, 2, [65], [66], 0) == 1 && FirstHit(es, 2, [65], [66], 0) == 0
  {
    MadeEntry(9, [65], [66], 1);
    MadeEntry(10, [65], [66], 2);
    var es := [MakeEntry(9, [65], [66], 1), MakeEntry(10, [65], [66], 2)];
    assert FirstHit(es, 1, [65], [66], 0) == 0;
    assert Chosen(es, 1, [65], [66], 0) == 0;
  }

  // ---------------------------------------------------------------
  // Writing an entry
  // ---------------------------------------------------------------

  /** What is left when there was no room for the entry: the entries in the last block, which is
      full, are lost. */
  function WithoutLastBlock(d: seq<byte>): seq<byte>
  {
    if |d| < 512 then d else d[..|d| - 512]
  }

  lemma {:induction false} EntryWritten(v: Volume, dir: Fcb, d: seq<byte>, k: nat, e: DirEntry, f: seq<byte>,
                     nused: nat, lbcount: nat, c: nat, b: nat)
    requires FileOk(v, dir.header) && lbcount <= 512 && !dir.header.contiguous
    requires |d| == ByteSize(nused, lbcount) <= |f| && d == f[..|d|] && |d| % ENTRY == 0 && AllNamed(AllEntries(d)) && Named(e)
    requires c <= nused && b <= 512 && 512 * c + b == ENTRY * k <= |d| && (nused > 0 ==> c < nused) && (nused == 0 ==> lbcount == 0 && b == 0)
    requires b == 512 ==> ENTRY * k == |d|
    requires WriteEnded(nused, lbcount, c, b, ENTRY, dir.header.nused, dir.header.lbcount, dir.curblk, dir.byteptr)
    requires Written(f, ENTRY * k, e, Blocks(v, dir.header))
    ensures DirOk(v, dir.header, Overwritten(d, ENTRY * k, e))
  {
    var h := dir.header;
    SizeAfterWrite(nused, lbcount, c, b, ENTRY, h.nused, h.lbcount, dir.curblk, dir.byteptr);
    ContentAfterWrite(f, ENTRY * k, e, Blocks(v, h), |d|, SizeOf(h));
    ContentIsContent(v, h, Overwritten(d, ENTRY * k, e));
    PutBytes(d, k, e);
  }

  /** Clusters that the write of an entry at position pos takes. */
  function EntryCost(x: Extent, pos: nat, cf: nat): nat
  {
    if pos < 512 * x.nused then 0 else StepCost(x, cf)
  }

  /** As many are free. */
  ghost predicate EntryFits(v: Volume, h: FcbHeader, pos: nat)
    reads h, v.cache
  {
    HasFree(v, v.cache.logical, EntryCost(HeaderExtent(v, h), pos, v.clfactor))
  }

  /** The write of an entry adds no block unless it is behind a full last block. */
  lemma EntryBlocks(c: nat, b: nat, k: nat, nused: nat)
    requires 512 * c + b == ENTRY * k <= 512 * nused && b <= 512 && c <= nused && (c == nused ==> b == 0)
    ensures if ENTRY * k < 512 * nused then BlocksAfter(c, b, ENTRY) <= nused else BlocksAfter(c, b, ENTRY) == nused + 1
  {
    assert b == 16 * (k - 32 * c);
  }

  /** What file_write requires, for one entry, and what it will take. */
  lemma RoomForEntry(v: Volume, dir: Fcb, k: nat)
    requires PosOk(dir) && Pos(dir) == ENTRY * k && (v.clfactor == 0 || EntryFits(v, dir.header, ENTRY * k))
    ensures RoomFor(v, dir.header, BlocksAfter(dir.curblk, dir.byteptr, ENTRY))
    ensures Cost(HeaderExtent(v, dir.header), BlocksAfter(dir.curblk, dir.byteptr, ENTRY), v.clfactor) == EntryCost(HeaderExtent(v, dir.header), ENTRY * k, v.clfactor)
  {
    var x := HeaderExtent(v, dir.header);
    EntryBlocks(dir.curblk, dir.byteptr, k, x.nused);
    assert Cost(Next(x, v.clfactor), x.nused + 1, v.clfactor) == 0;
  }

  /** Where such a write can fail. */
  lemma RefusedAt(nused: nat, k: nat, n: nat, size: nat, nused': nat)
    requires nused' >= nused && 512 * nused' == ENTRY * k + n && n < ENTRY && ENTRY * k <= size <= 512 * nused
    ensures nused' == nused && n == 0 && size == ENTRY * k == 512 * nused
  {
    assert n == 16 * (32 * nused - k);
  }

  lemma {:induction false} EntryRefused(v: Volume, dir: Fcb, d: seq<byte>, k: nat, e: DirEntry, f: seq<byte>, n: nat,
                     nused: nat, lbcount: nat)
    requires FileOk(v, dir.header) && lbcount <= 512 && !dir.header.contiguous && n < ENTRY && PosOk(dir)
    requires |d| == ByteSize(nused, lbcount) <= |f| == 512 * nused && d == f[..|d|] && |d| % ENTRY == 0 && AllNamed(AllEntries(d))
    requires ENTRY * k <= |d| && (nused == 0 ==> lbcount == 0)
    requires Pos(dir) == ENTRY * k + n && dir.header.nused == dir.curblk
    requires Written(f, ENTRY * k, e[..n], Blocks(v, dir.header)) && dir.header.lbcount == 0
    ensures ENTRY * k == |d| && |d| % 512 == 0 && DirOk(v, dir.header, WithoutLastBlock(d))
  {
    var h := dir.header;
    RefusedAt(nused, k, n, |d|, h.nused);
    ContentIsContent(v, h, WithoutLastBlock(d));
    var g := Blocks(v, h);
    assert g[..|d|] == f[..|d|] by { assert WrittenKey(0); }
    assert WithoutLastBlock(d) == g[..SizeOf(h)];
    EntriesPrefix(d, WithoutLastBlock(d));
  }

  lemma {:induction false} EntriesPrefix(d: seq<byte>, p: seq<byte>)
    requires p <= d && |p| % ENTRY == 0 && |d| % ENTRY == 0 && AllNamed(AllEntries(d))
    ensures AllEntries(p) == AllEntries(d)[..|p| / ENTRY] && AllNamed(AllEntries(p))
  {
    forall k: nat | k < |p| / ENTRY ensures AllEntries(p)[k] == AllEntries(d)[k] {
      EntryBytes(p, |p| / ENTRY, k);
      EntryBytes(d, |d| / ENTRY, k);
    }
  }

  /** A write that takes no more clusters takes none. */
  lemma NothingTaken(v: Volume, vol: Image, slots: seq<nat>, maps: seq<nat>, vol': Image, slots': seq<nat>, maps': seq<nat>)
    requires Wrote(v, vol, slots, maps, vol', slots', maps') && |Used(v, vol')| <= |Used(v, vol)|
    ensures Used(v, vol') == Used(v, vol) && Owned(v, slots', maps') == Owned(v, slots, maps)
  {
    assert WroteKey(0);
    var more := Used(v, vol') - Used(v, vol);
    assert Used(v, vol') == Used(v, vol) + more && |more| == 0;
    assert Owned(v, slots', maps') - Owned(v, slots, maps) <= more;
  }

  /** file_seek and file_write of one entry.  It fails if and only if the clusters for one more block
      are needed and not free. */
  method PutEntry(v: Volume, dir: Fcb, fpos: nat, e: DirEntry, ghost d: seq<byte>, ghost k: nat) returns (ok: bool)
    requires v.Valid() && DirOk(v, dir.header, d) && |v.cache.pins| + 2 <= NBUFFERS && Named(e)
    requires fpos == ENTRY * k <= |d| && (v.clfactor == 0 || EntryFits(v, dir.header, fpos))
    modifies v.cache, v.cache.buffer, dir, dir.header
    ensures v.Valid() && v.cache.Kept(old(v.cache.pins)) && FileWrote(v, dir.header)
    ensures ok <==> old(EntryFits(v, dir.header, fpos))
    ensures ok ==> v.cache.pins == old(v.cache.pins) && DirOk(v, dir.header, Overwritten(d, ENTRY * k, e))
    ensures ok ==> |Used(v, v.cache.logical)| == |Used(v, old(v.cache.logical))| + old(EntryCost(HeaderExtent(v, dir.header), fpos, v.clfactor))
    ensures !ok ==> ENTRY * k == |d| && |d| % 512 == 0 && Full(v, v.cache.logical) && v.clfactor == 0
    ensures !ok ==> v.cache.pins == old(v.cache.pins) + multiset{LeakedBlock(v)} && DirOk(v, dir.header, WithoutLastBlock(d))
  {
    var h := dir.header;
    ContentIsContent(v, h, d);
    var err := FileSeek(v, dir, fpos);
    ghost var f, nused, lbcount, c, b := Blocks(v, h), h.nused, h.lbcount, dir.curblk, dir.byteptr;
    assert d == f[..|d|];
    RoomForEntry(v, dir, k);
    var n;
    ghost var failed;
    n, failed := FileWrite(v, dir, e);
    ok := n == ENTRY;
    assert e[..ENTRY] == e;
    if ok {
      EntryWritten(v, dir, d, k, e, f, nused, lbcount, c, b);
    } else {
      EntryRefused(v, dir, d, k, e, f, n, nused, lbcount);
    }
  }
}
